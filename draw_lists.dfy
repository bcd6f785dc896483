/**
 * The renderer's three draw-entry lists as values: the scene list with its
 * cache-key table, box and six buckets, the highlight list and the selection
 * list, how `setScene` builds the scene list, and the skip counters the key
 * sets maintain.
 */
module DrawLists {
  import opened CacheKeys
  import opened RenderTypes
  import opened Classify
  import opened RenderPasses
  import opened SelMaps
  import Sorting
  import MaterialDiff

  /** The draw-entry list a bucket indexes. */
  function ListOf(b: Bucket): DrawList
  {
    match b
    case OpaqueVCache => SceneList
    case TranspVCache => SceneList
    case OpaqueOnTop => SceneList
    case TranspOnTop => SceneList
    case LinesOnTop => SceneList
    case TrianglesOnTop => SceneList
    case OpaqueHighlight => HighlightList
    case OpaqueLinesHighlight => HighlightList
    case TranspHighlight => HighlightList
    case _ => SelectionList
  }

  /** The buckets holding `DrawEntryIndex` records; the others hold plain indices. */
  predicate IsRecordBucket(b: Bucket)
  {
    b.TranspVCache? || b.TranspOnTop? || b.TranspHighlight? || b.TranspSelections? || b.TranspSelectionsOnTop?
  }

  /**
   * `pushDrawEntry`: appends the entry and takes it back when its box is
   * empty; returns the new size, or 0 for a dropped entry.
   */
  function PushDrawEntry(es: seq<DrawEntry>, m: Material, v: VertexCacheEntry): (r: (seq<DrawEntry>, nat))
    ensures r.1 == 0 <==> IsEmpty(v.bbox)
    ensures r.1 == 0 ==> r.0 == es
    ensures r.1 != 0 ==> r.0 == es + [DrawEntry(m, v, 0)] && r.1 == |r.0|
  {
    var pushed := es + [DrawEntry(m, v, 0)];
    if IsEmpty(pushed[|pushed| - 1].ventry.bbox) then (pushed[..|pushed| - 1], 0)
    else (pushed, |pushed|)
  }

  // ---------------------------------------------------------------------
  // The skip counters

  lemma {:induction false} BumpedUnion(es: seq<DrawEntry>, t: map<CacheKeyPtr, seq<nat>>, a: set<CacheKeyPtr>, k: CacheKeyPtr, d: int)
    requires k !in a
    ensures Bumped(Bumped(es, t, a, d), t, {k}, d) == Bumped(es, t, a + {k}, d)
  {
  }

  lemma {:induction false} BumpedEmptyTable(es: seq<DrawEntry>, keys: set<CacheKeyPtr>, d: int)
    ensures Bumped(es, map[], keys, d) == es
  {
  }

  lemma {:induction false} BumpedKeepsTable(es: seq<DrawEntry>, t: map<CacheKeyPtr, seq<nat>>, keys: set<CacheKeyPtr>, d: int)
    requires TableConsistent(t, es)
    ensures TableConsistent(t, Bumped(es, t, keys, d))
  {
    TableConsistentSameKeys(t, es, Bumped(es, t, keys, d));
  }

  /** Taking the highlight keys back leaves only the selection keys counted. */
  lemma {:induction false} AccountedRemoveHighlight(es: seq<DrawEntry>, t: map<CacheKeyPtr, seq<nat>>, hk: set<CacheKeyPtr>, sk: set<CacheKeyPtr>)
    requires Accounted(es, t, hk, sk)
    ensures Accounted(Bumped(es, t, hk, -1), t, {}, sk)
  {
  }

  /** Applying a new highlight key set counts it. */
  lemma {:induction false} AccountedAddHighlight(es: seq<DrawEntry>, t: map<CacheKeyPtr, seq<nat>>, hk: set<CacheKeyPtr>, sk: set<CacheKeyPtr>)
    requires Accounted(es, t, {}, sk)
    ensures Accounted(Bumped(es, t, hk, 1), t, hk, sk)
  {
  }

  /** Taking the selection keys back leaves only the highlight keys counted. */
  lemma {:induction false} AccountedRemoveSelection(es: seq<DrawEntry>, t: map<CacheKeyPtr, seq<nat>>, hk: set<CacheKeyPtr>, sk: set<CacheKeyPtr>)
    requires Accounted(es, t, hk, sk)
    ensures Accounted(Bumped(es, t, sk, -1), t, hk, {})
  {
  }

  /** Applying one more selection key counts it. */
  lemma {:induction false} AccountedAddSelectionKey(es: seq<DrawEntry>, t: map<CacheKeyPtr, seq<nat>>, hk: set<CacheKeyPtr>, sk: set<CacheKeyPtr>, k: CacheKeyPtr)
    requires Accounted(es, t, hk, sk) && k !in sk
    ensures Accounted(Bumped(es, t, {k}, 1), t, hk, sk + {k})
  {
  }

  /** Fresh entries with the highlight keys applied count exactly the highlight keys. */
  lemma {:induction false} AccountedFresh(es: seq<DrawEntry>, t: map<CacheKeyPtr, seq<nat>>, hk: set<CacheKeyPtr>)
    requires forall i :: 0 <= i < |es| ==> es[i].skip == 0
    ensures Accounted(Bumped(es, t, hk, 1), t, hk, {})
  {
  }

  // ---------------------------------------------------------------------
  // The three draw-entry lists with their buckets

  /** The scene list: its entries, the key table, the scene box and the six scene buckets. */
  datatype SceneState = SceneState(
    entries: seq<DrawEntry>,
    table: map<CacheKeyPtr, seq<nat>>,
    box: Box,
    opaquevcache: seq<nat>,
    opaqueontop: seq<nat>,
    linesontop: seq<nat>,
    trianglesontop: seq<nat>,
    transpvcache: seq<DrawEntryIndex>,
    transpontop: seq<DrawEntryIndex>)

  /** The highlight list: its entries, the keys it hides, its box and its three buckets. */
  datatype HighlightState = HighlightState(
    entries: seq<DrawEntry>,
    keys: set<CacheKeyPtr>,
    box: Box,
    opaqueidx: seq<nat>,
    lines: seq<nat>,
    transp: seq<DrawEntryIndex>)

  /** The selection list: its entries, its box and its seven buckets. */
  datatype SelectionState = SelectionState(
    entries: seq<DrawEntry>,
    box: Box,
    opaqueidx: seq<nat>,
    triangleontop: seq<nat>,
    ontop: seq<nat>,
    lineontop: seq<nat>,
    pointontop: seq<nat>,
    transp: seq<DrawEntryIndex>,
    transpontop: seq<DrawEntryIndex>)

  const NoScene := SceneState([], map[], EmptyBox, [], [], [], [], [], [])
  const NoHighlight := HighlightState([], {}, EmptyBox, [], [], [])
  const NoSelection := SelectionState([], EmptyBox, [], [], [], [], [], [], [])

  ghost predicate SceneIndexed(s: SceneState)
  {
    InRange(s.entries, s.opaquevcache) && InRange(s.entries, s.opaqueontop) &&
    InRange(s.entries, s.linesontop) && InRange(s.entries, s.trianglesontop) &&
    RecordsInRange(s.entries, s.transpvcache) && RecordsInRange(s.entries, s.transpontop)
  }

  ghost predicate HighlightIndexed(h: HighlightState)
  {
    InRange(h.entries, h.opaqueidx) && InRange(h.entries, h.lines) && RecordsInRange(h.entries, h.transp)
  }

  ghost predicate SelectionIndexed(s: SelectionState)
  {
    InRange(s.entries, s.opaqueidx) && InRange(s.entries, s.triangleontop) &&
    InRange(s.entries, s.ontop) && InRange(s.entries, s.lineontop) && InRange(s.entries, s.pointontop) &&
    RecordsInRange(s.entries, s.transp) && RecordsInRange(s.entries, s.transpontop)
  }

  /**
   * The key table points at scene entries with its keys, and every scene
   * entry's counter is the number of applied key sets, highlight and
   * selection, that list it; after `clear` the table is empty instead.
   */
  ghost predicate Counted(s: SceneState, hk: set<CacheKeyPtr>, sk: set<CacheKeyPtr>, cleared: bool)
  {
    TableConsistent(s.table, s.entries) &&
    (if cleared then s.table == map[] else Accounted(s.entries, s.table, hk, sk))
  }

  /** Both selection maps are ordered maps, split by the sign of the id. */
  ghost predicate SelectionMaps(sels: seq<Selection>, selsontop: seq<Selection>)
  {
    Ascending(sels) && Ascending(selsontop) &&
    (forall i :: 0 <= i < |sels| ==> sels[i].id <= 0) &&
    (forall i :: 0 <= i < |selsontop| ==> selsontop[i].id > 0)
  }

  /** The renderer's invariant over its lists, key sets and selection maps. */
  ghost predicate ListsValid(scene: SceneState, hl: HighlightState, sel: SelectionState,
                             selectionkeys: set<CacheKeyPtr>, cleared: bool,
                             selections: seq<Selection>, selectionsontop: seq<Selection>)
  {
    SceneIndexed(scene) && HighlightIndexed(hl) && SelectionIndexed(sel) &&
    Counted(scene, hl.keys, selectionkeys, cleared) && SelectionMaps(selections, selectionsontop)
  }

  // ---------------------------------------------------------------------
  // The scene list

  /** Appends `idx` to a plain scene bucket when the entry belongs there. */
  function Filed(ix: seq<nat>, e: DrawEntry, b: Bucket, idx: nat): seq<nat>
  {
    ix + (if InSceneBucket(e, b) then [idx] else [])
  }

  /** Appends a record for `idx` to a record scene bucket when the entry belongs there. */
  function FiledRecord(rs: seq<DrawEntryIndex>, e: DrawEntry, b: Bucket, idx: nat): seq<DrawEntryIndex>
  {
    rs + (if InSceneBucket(e, b) then [DrawEntryIndex(idx, 0.0)] else [])
  }

  /** The six scene buckets with the entry at `idx` filed. */
  function FileInScene(s: SceneState, e: DrawEntry, idx: nat): SceneState
  {
    s.(opaquevcache := Filed(s.opaquevcache, e, OpaqueVCache, idx),
       opaqueontop := Filed(s.opaqueontop, e, OpaqueOnTop, idx),
       linesontop := Filed(s.linesontop, e, LinesOnTop, idx),
       trianglesontop := Filed(s.trianglesontop, e, TrianglesOnTop, idx),
       transpvcache := FiledRecord(s.transpvcache, e, TranspVCache, idx),
       transpontop := FiledRecord(s.transpontop, e, TranspOnTop, idx))
  }

  /** One entry stored the way the loop of `setScene` stores it. */
  function StoreScene(s: SceneState, e: DrawEntry): SceneState
  {
    var idx := |s.entries|;
    var k := e.ventry.key;
    FileInScene(s.(entries := s.entries + [e],
                   table := s.table[k := (if k in s.table then s.table[k] else []) + [idx]],
                   box := Extend(s.box, e.ventry.bbox)), e, idx)
  }

  /** The scene that storing the entries `es` one by one, as the loop of `setScene` does, builds. */
  function SceneOf(es: seq<DrawEntry>): SceneState
  {
    if |es| == 0 then NoScene else StoreScene(SceneOf(es[..|es| - 1]), es[|es| - 1])
  }

  /** The scene the classification rules describe for the stored entries `es`. */
  function ClassifiedScene(es: seq<DrawEntry>): SceneState
  {
    SceneState(es, CacheTable(es), BoxOf(es, Classify.Always),
               SceneBucket(es, OpaqueVCache), SceneBucket(es, OpaqueOnTop),
               SceneBucket(es, LinesOnTop), SceneBucket(es, TrianglesOnTop),
               IndexRecords(SceneBucket(es, TranspVCache)), IndexRecords(SceneBucket(es, TranspOnTop)))
  }

  lemma {:induction false} SceneOfSnoc(es: seq<DrawEntry>, e: DrawEntry)
    ensures SceneOf(es + [e]) == StoreScene(SceneOf(es), e)
  {
    assert (es + [e])[..|es|] == es;
  }

  lemma {:induction false} IndexRecordsSnoc(ix: seq<nat>, i: nat)
    ensures IndexRecords(ix + [i]) == IndexRecords(ix) + [DrawEntryIndex(i, 0.0)]
  {
  }

  /** Storing one more entry files it in exactly the scene buckets whose rule it meets. */
  lemma {:induction false} FiledSnoc(es: seq<DrawEntry>, e: DrawEntry, b: Bucket)
    ensures SceneBucket(es + [e], b) == Filed(SceneBucket(es, b), e, b, |es|)
    ensures IndexRecords(SceneBucket(es + [e], b)) == FiledRecord(IndexRecords(SceneBucket(es, b)), e, b, |es|)
  {
    WhereSnoc(es, e, (x: DrawEntry) => InSceneBucket(x, b));
    if InSceneBucket(e, b) {
      IndexRecordsSnoc(SceneBucket(es, b), |es|);
    }
  }

  /**
   * Storing entries one by one builds the scene the classification rules
   * describe: the key table lists each entry's position under its key, the box
   * is the union of the entry boxes, each bucket lists the entries its rule
   * admits.
   */
  lemma {:induction false} SceneOfClassified(es: seq<DrawEntry>)
    ensures SceneOf(es) == ClassifiedScene(es)
  {
    if |es| > 0 {
      var init, e := es[..|es| - 1], es[|es| - 1];
      assert es == init + [e];
      SceneOfClassified(init);
      SceneOfSnoc(init, e);
      BoxOfSnoc(init, e, Classify.Always);
      CacheTableSnoc(init, e);
      FiledSnoc(init, e, OpaqueVCache);
      FiledSnoc(init, e, OpaqueOnTop);
      FiledSnoc(init, e, LinesOnTop);
      FiledSnoc(init, e, TrianglesOnTop);
      FiledSnoc(init, e, TranspVCache);
      FiledSnoc(init, e, TranspOnTop);
    }
  }

  /** Every scene bucket indexes the stored entries. */
  lemma {:induction false} SceneOfIndexed(es: seq<DrawEntry>)
    ensures SceneIndexed(ClassifiedScene(es))
  {
    forall b | b in {OpaqueVCache, OpaqueOnTop, LinesOnTop, TrianglesOnTop, TranspVCache, TranspOnTop}
      ensures forall j :: 0 <= j < |SceneBucket(es, b)| ==> SceneBucket(es, b)[j] < |es|
    {
      WhereSpec(es, (e: DrawEntry) => InSceneBucket(e, b));
      var ix := SceneBucket(es, b);
      assert forall j :: 0 <= j < |ix| ==> ix[j] in ix;
    }
  }

  /** The scene `setScene` leaves: the classified entries, each counter raised once per highlight key that lists it. */
  function FreshScene(es: seq<DrawEntry>, hk: set<CacheKeyPtr>): SceneState
  {
    ClassifiedScene(es).(entries := Bumped(es, CacheTable(es), hk, 1))
  }

  /** A scene just built from a vertex-cache map, with the highlight keys applied, is valid. */
  lemma {:induction false} FreshSceneValid(cache: seq<CacheGroup>, hk: set<CacheKeyPtr>)
    ensures TableConsistent(CacheTable(MapEntries(cache)), MapEntries(cache))
    ensures var s := FreshScene(MapEntries(cache), hk);
      SceneIndexed(s) && Counted(s, hk, {}, false)
  {
    var es := MapEntries(cache);
    SceneOfIndexed(es);
    CacheTableSpec(es);
    MapEntriesFresh(cache);
    BumpedKeepsTable(es, CacheTable(es), hk, 1);
    AccountedFresh(es, CacheTable(es), hk);
  }

  lemma {:induction false} KeptGrows(m: Material, vs: seq<VertexCacheEntry>, k: nat, es: seq<DrawEntry>)
    requires k < |vs|
    ensures es + KeptEntries(m, vs[..k + 1])
         == es + KeptEntries(m, vs[..k]) + (if IsEmpty(vs[k].bbox) then [] else [DrawEntry(m, vs[k], 0)])
  {
    assert vs[..k + 1] == vs[..k] + [vs[k]];
    KeptEntriesSnoc(m, vs[..k], vs[k]);
  }

  lemma {:induction false} MapEntriesGrow(gs: seq<CacheGroup>, i: nat)
    requires i < |gs|
    ensures MapEntries(gs[..i + 1]) == MapEntries(gs[..i]) + GroupEntries(gs[i])
  {
    assert gs[..i + 1] == gs[..i] + [gs[i]];
    MapEntriesSnoc(gs[..i], gs[i]);
  }

  /** The entries of a vertex-cache map start with zero counters. */
  lemma {:induction false} MapEntriesFresh(gs: seq<CacheGroup>)
    ensures forall i :: 0 <= i < |MapEntries(gs)| ==> MapEntries(gs)[i].skip == 0
  {
    MapEntriesSpec(gs);
    forall i | 0 <= i < |MapEntries(gs)| ensures MapEntries(gs)[i].skip == 0 {
      assert MapEntries(gs)[i] in MapEntries(gs);
    }
  }

  // ---------------------------------------------------------------------
  // Moving the counters

  /** Removing the highlight keys' counts leaves a scene counted for the selection keys alone. */
  lemma {:induction false} CountedRemoveHighlight(s: SceneState, hk: set<CacheKeyPtr>, sk: set<CacheKeyPtr>, cleared: bool)
    requires SceneIndexed(s) && Counted(s, hk, sk, cleared)
    ensures var s' := s.(entries := Bumped(s.entries, s.table, hk, -1));
      SceneIndexed(s') && Counted(s', {}, sk, cleared)
  {
    BumpedKeepsTable(s.entries, s.table, hk, -1);
    if !cleared {
      AccountedRemoveHighlight(s.entries, s.table, hk, sk);
    }
  }

  /** Applying a new highlight key set to a scene counted without one counts it for that set. */
  lemma {:induction false} CountedAddHighlight(s: SceneState, hk: set<CacheKeyPtr>, sk: set<CacheKeyPtr>, cleared: bool)
    requires SceneIndexed(s) && Counted(s, {}, sk, cleared)
    ensures var s' := s.(entries := Bumped(s.entries, s.table, hk, 1));
      SceneIndexed(s') && Counted(s', hk, sk, cleared)
  {
    BumpedKeepsTable(s.entries, s.table, hk, 1);
    if !cleared {
      AccountedAddHighlight(s.entries, s.table, hk, sk);
    }
  }

  /**
   * The scene loops skip exactly the entries a highlight or selection key
   * hides: while the key table is in use, an entry's counter is zero if and
   * only if no applied key lists it.
   */
  lemma {:induction false} SkippedIffHidden(s: SceneState, hk: set<CacheKeyPtr>, sk: set<CacheKeyPtr>, i: nat)
    requires Counted(s, hk, sk, false) && i < |s.entries|
    ensures s.entries[i].skip == 0 <==> !Suppressed(s.table, hk, s.entries, i) && !Suppressed(s.table, sk, s.entries, i)
    ensures 0 <= s.entries[i].skip <= 2
  {
  }

  // ---------------------------------------------------------------------
  // The highlight list

  /** The three highlight buckets with the entry at `idx` filed. */
  function FileInHighlight(h: HighlightState, e: DrawEntry, idx: nat): HighlightState
  {
    h.(opaqueidx := h.opaqueidx + (if InHighlightBucket(e, OpaqueHighlight) then [idx] else []),
       lines := h.lines + (if InHighlightBucket(e, OpaqueLinesHighlight) then [idx] else []),
       transp := h.transp + (if InHighlightBucket(e, TranspHighlight) then [DrawEntryIndex(idx, 0.0)] else []))
  }

  /** One entry stored the way the loop of `setHighlight` stores it. */
  function StoreHighlight(h: HighlightState, e: DrawEntry): HighlightState
  {
    var h' := h.(entries := h.entries + [e]);
    FileInHighlight(
      if IsHighlightKeyEntry(e) then h'.(keys := h'.keys + {e.ventry.key}, box := Extend(h'.box, e.ventry.bbox)) else h',
      e, |h.entries|)
  }

  /** The highlight list that storing the entries `es` one by one builds. */
  function HighlightOf(es: seq<DrawEntry>): HighlightState
  {
    if |es| == 0 then NoHighlight else StoreHighlight(HighlightOf(es[..|es| - 1]), es[|es| - 1])
  }

  /** The highlight list the classification rules describe for the stored entries `es`. */
  function ClassifiedHighlight(es: seq<DrawEntry>): HighlightState
  {
    HighlightState(es, HighlightKeys(es), BoxOf(es, IsHighlightKeyEntry),
                   HighlightBucket(es, OpaqueHighlight), HighlightBucket(es, OpaqueLinesHighlight),
                   IndexRecords(HighlightBucket(es, TranspHighlight)))
  }

  lemma {:induction false} HighlightOfSnoc(es: seq<DrawEntry>, e: DrawEntry)
    ensures HighlightOf(es + [e]) == StoreHighlight(HighlightOf(es), e)
  {
    assert (es + [e])[..|es|] == es;
  }

  lemma {:induction false} HighlightFiledSnoc(es: seq<DrawEntry>, e: DrawEntry, b: Bucket)
    ensures HighlightBucket(es + [e], b) == HighlightBucket(es, b) + (if InHighlightBucket(e, b) then [|es|] else [])
  {
    WhereSnoc(es, e, (x: DrawEntry) => InHighlightBucket(x, b));
  }

  /**
   * Storing entries one by one builds the highlight list the rules describe:
   * the keys and the box of the entries that hide their original object, and
   * each bucket listing the entries its rule admits.
   */
  lemma {:induction false} HighlightOfClassified(es: seq<DrawEntry>)
    ensures HighlightOf(es) == ClassifiedHighlight(es)
  {
    if |es| > 0 {
      var init, e := es[..|es| - 1], es[|es| - 1];
      assert es == init + [e];
      HighlightOfClassified(init);
      HighlightOfSnoc(init, e);
      HighlightKeysSnoc(init, e);
      BoxOfSnoc(init, e, IsHighlightKeyEntry);
      HighlightFiledSnoc(init, e, OpaqueHighlight);
      HighlightFiledSnoc(init, e, OpaqueLinesHighlight);
      HighlightFiledSnoc(init, e, TranspHighlight);
      if InHighlightBucket(e, TranspHighlight) {
        IndexRecordsSnoc(HighlightBucket(init, TranspHighlight), |init|);
      }
    }
  }

  /** Every highlight bucket indexes the stored highlight entries. */
  lemma {:induction false} HighlightOfIndexed(es: seq<DrawEntry>)
    ensures HighlightIndexed(ClassifiedHighlight(es))
  {
    forall b | b in {OpaqueHighlight, OpaqueLinesHighlight, TranspHighlight}
      ensures forall j :: 0 <= j < |HighlightBucket(es, b)| ==> HighlightBucket(es, b)[j] < |es|
    {
      WhereSpec(es, (e: DrawEntry) => InHighlightBucket(e, b));
      var ix := HighlightBucket(es, b);
      assert forall j :: 0 <= j < |ix| ==> ix[j] in ix;
    }
  }

  // ---------------------------------------------------------------------
  // The selection list

  lemma {:induction false} AccountedAddSelection(es: seq<DrawEntry>, t: map<CacheKeyPtr, seq<nat>>, hk: set<CacheKeyPtr>, sk: set<CacheKeyPtr>)
    requires Accounted(es, t, hk, {})
    ensures Accounted(Bumped(es, t, sk, 1), t, hk, sk)
  {
  }

  /** Applying the new selection keys to a scene counted without any counts it for those keys. */
  lemma {:induction false} CountedAddSelection(s: SceneState, hk: set<CacheKeyPtr>, sk: set<CacheKeyPtr>, cleared: bool)
    requires SceneIndexed(s) && Counted(s, hk, {}, cleared)
    ensures var s' := s.(entries := Bumped(s.entries, s.table, sk, 1));
      SceneIndexed(s') && Counted(s', hk, sk, cleared)
  {
    BumpedKeepsTable(s.entries, s.table, sk, 1);
    if !cleared {
      AccountedAddSelection(s.entries, s.table, hk, sk);
    }
  }

  /** Taking the selection keys' counts off leaves a scene counted for the highlight keys alone. */
  lemma {:induction false} CountedRemoveSelection(s: SceneState, hk: set<CacheKeyPtr>, sk: set<CacheKeyPtr>, cleared: bool)
    requires SceneIndexed(s) && Counted(s, hk, sk, cleared)
    ensures var s' := s.(entries := Bumped(s.entries, s.table, sk, -1));
      SceneIndexed(s') && Counted(s', hk, {}, cleared)
  {
    BumpedKeepsTable(s.entries, s.table, sk, -1);
    if !cleared {
      AccountedRemoveSelection(s.entries, s.table, hk, sk);
    }
  }

  /** The candidates `updateSelection` visits: the on-top map first, then the other. */
  function SelectionCandidates(sels: seq<Selection>, selsontop: seq<Selection>): seq<SelUnit>
  {
    SelUnits(selsontop, true) + SelUnits(sels, false)
  }

  /** The seven selection buckets with the kept candidate at `idx` filed. */
  function FileInSelection(s: SelectionState, u: SelUnit, idx: nat, p: ViewParams): SelectionState
  {
    s.(opaqueidx := s.opaqueidx + (if InSelectionBucket(u, OpaqueSelections, p) then [idx] else []),
       triangleontop := s.triangleontop + (if InSelectionBucket(u, SelsTriangleOnTop, p) then [idx] else []),
       ontop := s.ontop + (if InSelectionBucket(u, SelsOnTop, p) then [idx] else []),
       lineontop := s.lineontop + (if InSelectionBucket(u, SelsLineOnTop, p) then [idx] else []),
       pointontop := s.pointontop + (if InSelectionBucket(u, SelsPointOnTop, p) then [idx] else []),
       transp := s.transp + (if InSelectionBucket(u, TranspSelections, p) then [DrawEntryIndex(idx, 0.0)] else []),
       transpontop := s.transpontop + (if InSelectionBucket(u, TranspSelectionsOnTop, p) then [DrawEntryIndex(idx, 0.0)] else []))
  }

  /** A triangle candidate of the on-top map goes to the transparent on-top bucket, and to the triangle one unless selected whole. */
  lemma {:induction false} OnTopTriangleFiled(s: SelectionState, u: SelUnit, idx: nat, p: ViewParams)
    requires u.onTopList && u.entry.material.kind == Triangle
    ensures var t := s.(transpontop := s.transpontop + [DrawEntryIndex(idx, 0.0)]);
      FileInSelection(s, u, idx, p)
      == if !HasBit(u.selId, p.selIdSelectedBit) || u.entry.material.partialhighlight
         then t.(triangleontop := t.triangleontop + [idx]) else t
  {
  }

  /** A line or point candidate of the on-top map goes to exactly one bucket, chosen by the id's bits. */
  lemma {:induction false} OnTopEdgeFiled(s: SelectionState, u: SelUnit, idx: nat, p: ViewParams)
    requires u.onTopList && u.entry.material.kind != Triangle
    ensures FileInSelection(s, u, idx, p)
         == if HasBit(u.selId, p.selIdPartialBit) then
              if u.entry.material.kind == Line then s.(lineontop := s.lineontop + [idx])
              else s.(pointontop := s.pointontop + [idx])
            else if !HasBit(u.selId, p.selIdFullBit) || u.entry.material.partialhighlight then s.(ontop := s.ontop + [idx])
            else s.(transpontop := s.transpontop + [DrawEntryIndex(idx, 0.0)])
  {
  }

  /** A candidate of the other map goes to the opaque and the transparent bucket by the scene's rules. */
  lemma {:induction false} OtherFiled(s: SelectionState, u: SelUnit, idx: nat, p: ViewParams)
    requires !u.onTopList
    ensures FileInSelection(s, u, idx, p)
         == s.(opaqueidx := s.opaqueidx + (if IsOpaque(u.entry) then [idx] else []),
               transp := s.transp + (if IsTransparent(u.entry) then [DrawEntryIndex(idx, 0.0)] else []))
  {
  }

  /** What `checkKey` does to the selection list for a candidate it keeps. */
  function AddSelected(s: SelectionState, u: SelUnit): SelectionState
  {
    s.(entries := s.entries + [u.entry],
       box := if IsWholeObject(u.entry) then Extend(s.box, u.entry.ventry.bbox) else s.box)
  }

  /** One kept candidate stored the way `checkKey` and the loops of `updateSelection` store it. */
  function StoreSelection(s: SelectionState, u: SelUnit, p: ViewParams): SelectionState
  {
    FileInSelection(AddSelected(s, u), u, |s.entries|, p)
  }

  /** The selection list that storing the kept candidates one by one builds. */
  function SelectionOf(kept: seq<SelUnit>, p: ViewParams): SelectionState
  {
    if |kept| == 0 then NoSelection else StoreSelection(SelectionOf(kept[..|kept| - 1], p), kept[|kept| - 1], p)
  }

  /** The selection list the rules describe for the kept candidates. */
  function ClassifiedSelection(kept: seq<SelUnit>, p: ViewParams): SelectionState
  {
    var es := EntriesOf(kept);
    SelectionState(es, BoxOf(es, IsWholeObject),
                   SelectionBucket(kept, OpaqueSelections, p), SelectionBucket(kept, SelsTriangleOnTop, p),
                   SelectionBucket(kept, SelsOnTop, p), SelectionBucket(kept, SelsLineOnTop, p),
                   SelectionBucket(kept, SelsPointOnTop, p),
                   IndexRecords(SelectionBucket(kept, TranspSelections, p)),
                   IndexRecords(SelectionBucket(kept, TranspSelectionsOnTop, p)))
  }

  lemma {:induction false} SelectionOfSnoc(kept: seq<SelUnit>, u: SelUnit, p: ViewParams)
    ensures SelectionOf(kept + [u], p) == StoreSelection(SelectionOf(kept, p), u, p)
  {
    assert (kept + [u])[..|kept|] == kept;
  }

  lemma {:induction false} SelectionFiledSnoc(kept: seq<SelUnit>, u: SelUnit, b: Bucket, p: ViewParams)
    ensures SelectionBucket(kept + [u], b, p) == SelectionBucket(kept, b, p) + (if InSelectionBucket(u, b, p) then [|kept|] else [])
    ensures IndexRecords(SelectionBucket(kept + [u], b, p))
         == IndexRecords(SelectionBucket(kept, b, p)) + (if InSelectionBucket(u, b, p) then [DrawEntryIndex(|kept|, 0.0)] else [])
  {
    WhereSnoc(kept, u, (x: SelUnit) => InSelectionBucket(x, b, p));
    if InSelectionBucket(u, b, p) {
      IndexRecordsSnoc(SelectionBucket(kept, b, p), |kept|);
    }
  }

  lemma {:induction false} EntriesOfSnoc(kept: seq<SelUnit>, u: SelUnit)
    ensures EntriesOf(kept + [u]) == EntriesOf(kept) + [u.entry]
  {
  }

  /**
   * Storing the kept candidates one by one builds the selection list the
   * rules describe: their entries, the box of the kept whole-object entries,
   * and each bucket listing the candidates its rule admits.
   */
  lemma {:induction false} SelectionOfClassified(kept: seq<SelUnit>, p: ViewParams)
    ensures SelectionOf(kept, p) == ClassifiedSelection(kept, p)
  {
    if |kept| > 0 {
      SelectionOfClassified(kept[..|kept| - 1], p);
      StoreClassified(kept, p);
    }
  }

  /** Storing one more kept candidate extends the classified selection list by it. */
  lemma {:induction false} StoreClassified(kept: seq<SelUnit>, p: ViewParams)
    requires |kept| > 0
    ensures StoreSelection(ClassifiedSelection(kept[..|kept| - 1], p), kept[|kept| - 1], p) == ClassifiedSelection(kept, p)
  {
    var init, u := kept[..|kept| - 1], kept[|kept| - 1];
    assert kept == init + [u];
    var a, b := StoreSelection(ClassifiedSelection(init, p), u, p), ClassifiedSelection(init + [u], p);
    EntriesOfSnoc(init, u);
    BoxOfSnoc(EntriesOf(init), u.entry, IsWholeObject);
    assert a.entries == b.entries && a.box == b.box;
    SelectionFiledSnoc(init, u, OpaqueSelections, p);
    SelectionFiledSnoc(init, u, SelsTriangleOnTop, p);
    SelectionFiledSnoc(init, u, SelsOnTop, p);
    assert a.opaqueidx == b.opaqueidx && a.triangleontop == b.triangleontop && a.ontop == b.ontop;
    SelectionFiledSnoc(init, u, SelsLineOnTop, p);
    SelectionFiledSnoc(init, u, SelsPointOnTop, p);
    assert a.lineontop == b.lineontop && a.pointontop == b.pointontop;
    SelectionFiledSnoc(init, u, TranspSelections, p);
    SelectionFiledSnoc(init, u, TranspSelectionsOnTop, p);
    assert a.transp == b.transp && a.transpontop == b.transpontop;
  }

  /** Every selection bucket indexes the stored selection entries. */
  lemma {:induction false} SelectionOfIndexed(kept: seq<SelUnit>, p: ViewParams)
    ensures SelectionIndexed(ClassifiedSelection(kept, p))
  {
    forall b | b in {OpaqueSelections, SelsTriangleOnTop, SelsOnTop, SelsLineOnTop, SelsPointOnTop, TranspSelections, TranspSelectionsOnTop}
      ensures forall j :: 0 <= j < |SelectionBucket(kept, b, p)| ==> SelectionBucket(kept, b, p)[j] < |kept|
    {
      WhereSpec(kept, (u: SelUnit) => InSelectionBucket(u, b, p));
      var ix := SelectionBucket(kept, b, p);
      assert forall j :: 0 <= j < |ix| ==> ix[j] in ix;
    }
  }

  /**
   * During `updateSelection`: the selection keys and `renderkeys` are those of
   * the `checkKey` decisions so far, and the scene counters are those of `base`
   * with the selection keys applied.
   */
  ghost predicate KeysApplied(scene: SceneState, sk: set<CacheKeyPtr>, rk: set<seq<int>>, base: SceneState, st: SelState)
  {
    sk == st.keys && rk == st.renderkeys && scene == base.(entries := Bumped(base.entries, base.table, st.keys, 1))
  }

  /** During `updateSelection`, after the candidates `done`: the keys applied and the kept candidates stored. */
  ghost predicate Selecting(scene: SceneState, sel: SelectionState, sk: set<CacheKeyPtr>, rk: set<seq<int>>,
                            base: SceneState, done: seq<SelUnit>, p: ViewParams)
  {
    KeysApplied(scene, sk, rk, base, CheckKeys(done)) && sel == SelectionOf(CheckKeys(done).kept, p)
  }

  /** The candidate a selection cache contributes, if its box is not empty. */
  function Candidate(id: int, top: bool, m: Material, v: VertexCacheEntry): seq<SelUnit>
  {
    if IsEmpty(v.bbox) then [] else [SelUnit(id, top, DrawEntry(m, v, 0))]
  }

  /** The `checkKey` state after the candidate of one selection cache. */
  function Checked(st: SelState, id: int, top: bool, m: Material, v: VertexCacheEntry): SelState
  {
    if IsEmpty(v.bbox) then st else CheckKey(st, SelUnit(id, top, DrawEntry(m, v, 0)))
  }

  /**
   * One `checkKey` step keeps `updateSelection`'s bookkeeping: the selection
   * list `sel1` is `sel0` with the candidate stored exactly when the step
   * kept it.
   */
  lemma {:induction false} CandidateChecked(done: seq<SelUnit>, id: int, top: bool, m: Material, v: VertexCacheEntry,
                                            sel0: SelectionState, sel1: SelectionState, p: ViewParams,
                                            scene: SceneState, sk: set<CacheKeyPtr>, rk: set<seq<int>>, base: SceneState)
    requires sel0 == SelectionOf(CheckKeys(done).kept, p)
    requires KeysApplied(scene, sk, rk, base, Checked(CheckKeys(done), id, top, m, v))
    requires var st, u := CheckKeys(done), SelUnit(id, top, DrawEntry(m, v, 0));
      var st1 := Checked(st, id, top, m, v);
      (st1 == st ==> sel1 == sel0) &&
      (st1 != st ==> st1.kept == st.kept + [u] && sel1 == StoreSelection(sel0, u, p))
    ensures Selecting(scene, sel1, sk, rk, base, done + Candidate(id, top, m, v), p)
  {
    var st, u := CheckKeys(done), SelUnit(id, top, DrawEntry(m, v, 0));
    if IsEmpty(v.bbox) {
      assert done + Candidate(id, top, m, v) == done;
    } else {
      CheckKeysSnoc(done, u);
    }
    if Checked(st, id, top, m, v) != st {
      SelectionOfSnoc(st.kept, u, p);
    }
  }

  lemma {:induction false} CandidateGrows(id: int, top: bool, m: Material, vs: seq<VertexCacheEntry>, k: nat, done: seq<SelUnit>)
    requires k < |vs|
    ensures done + Tag(id, top, KeptEntries(m, vs[..k + 1]))
         == done + Tag(id, top, KeptEntries(m, vs[..k])) + Candidate(id, top, m, vs[k])
  {
    assert vs[..k + 1] == vs[..k] + [vs[k]];
    KeptEntriesSnoc(m, vs[..k], vs[k]);
    TagAppend(id, top, KeptEntries(m, vs[..k]), if IsEmpty(vs[k].bbox) then [] else [DrawEntry(m, vs[k], 0)]);
  }

  lemma {:induction false} CandidatesGrow(id: int, top: bool, gs: seq<CacheGroup>, i: nat, done: seq<SelUnit>)
    requires i < |gs|
    ensures done + Tag(id, top, MapEntries(gs[..i + 1]))
         == done + Tag(id, top, MapEntries(gs[..i])) + Tag(id, top, GroupEntries(gs[i]))
  {
    MapEntriesGrow(gs, i);
    TagAppend(id, top, MapEntries(gs[..i]), GroupEntries(gs[i]));
  }

  lemma {:induction false} SelUnitsGrow(sels: seq<Selection>, top: bool, i: nat, done: seq<SelUnit>)
    requires i < |sels|
    ensures done + SelUnits(sels[..i + 1], top)
         == done + SelUnits(sels[..i], top) + Tag(sels[i].id, top, MapEntries(sels[i].caches))
  {
    assert sels[..i + 1] == sels[..i] + [sels[i]];
    SelUnitsSnoc(sels[..i], sels[i], top);
  }

  lemma {:induction false} BumpedNoKeys(es: seq<DrawEntry>, t: map<CacheKeyPtr, seq<nat>>, d: int)
    ensures Bumped(es, t, {}, d) == es
  {
  }

  /** `updateSelection` started from a scene that `base` counts without selection keys. */
  lemma {:induction false} SelectingStart(base: SceneState, p: ViewParams)
    ensures Selecting(base, NoSelection, {}, {}, base, [], p)
  {
    BumpedNoKeys(base.entries, base.table, 1);
  }

  /**
   * The state `updateSelection` leaves when it runs: the selection list and
   * the selection keys of the `checkKey` decisions over both maps, and the
   * scene counters with the old selection keys taken off and the new ones
   * applied.
   */
  ghost predicate Reselected(scene0: SceneState, sk0: set<CacheKeyPtr>, scene: SceneState, sel: SelectionState,
                             sk: set<CacheKeyPtr>, sels: seq<Selection>, selsontop: seq<Selection>, p: ViewParams)
  {
    var st := CheckKeys(SelectionCandidates(sels, selsontop));
    sel == ClassifiedSelection(st.kept, p) && sk == st.keys &&
    scene == scene0.(entries := Bumped(Bumped(scene0.entries, scene0.table, sk0, -1), scene0.table, st.keys, 1))
  }

  /** Lists whose buckets, keys, key table and selection maps are all empty are valid, whatever their entries. */
  lemma {:induction false} ClearedValid(es: seq<DrawEntry>, b: Box, hes: seq<DrawEntry>, hb: Box, ses: seq<DrawEntry>, sb: Box)
    ensures ListsValid(NoScene.(entries := es, box := b), NoHighlight.(entries := hes, box := hb),
                       NoSelection.(entries := ses, box := sb), {}, true, [], [])
  {
  }

  // ---------------------------------------------------------------------
  // The lists and buckets the draw loops walk

  /** The three lists together. */
  datatype Lists = Lists(scene: SceneState, hl: HighlightState, sel: SelectionState)

  /** The entries of one list. */
  function ListEntries(ls: Lists, list: DrawList): seq<DrawEntry>
  {
    match list
    case SceneList => ls.scene.entries
    case HighlightList => ls.hl.entries
    case SelectionList => ls.sel.entries
  }

  ghost predicate Indexed(ls: Lists)
  {
    SceneIndexed(ls.scene) && HighlightIndexed(ls.hl) && SelectionIndexed(ls.sel)
  }

  /** A bucket of plain indices; in valid lists each names an entry of the bucket's list. */
  function BucketIndices(ls: Lists, b: Bucket): (r: seq<nat>)
    requires !IsRecordBucket(b)
    ensures Indexed(ls) ==> InRange(ListEntries(ls, ListOf(b)), r)
  {
    match b
    case OpaqueVCache => ls.scene.opaquevcache
    case OpaqueOnTop => ls.scene.opaqueontop
    case LinesOnTop => ls.scene.linesontop
    case TrianglesOnTop => ls.scene.trianglesontop
    case OpaqueHighlight => ls.hl.opaqueidx
    case OpaqueLinesHighlight => ls.hl.lines
    case OpaqueSelections => ls.sel.opaqueidx
    case SelsTriangleOnTop => ls.sel.triangleontop
    case SelsOnTop => ls.sel.ontop
    case SelsLineOnTop => ls.sel.lineontop
    case SelsPointOnTop => ls.sel.pointontop
  }

  /** A bucket of records; in valid lists each names an entry of the bucket's list. */
  function BucketRecords(ls: Lists, b: Bucket): (r: seq<DrawEntryIndex>)
    requires IsRecordBucket(b)
    ensures Indexed(ls) ==> RecordsInRange(ListEntries(ls, ListOf(b)), r)
  {
    match b
    case TranspVCache => ls.scene.transpvcache
    case TranspOnTop => ls.scene.transpontop
    case TranspHighlight => ls.hl.transp
    case TranspSelections => ls.sel.transp
    case TranspSelectionsOnTop => ls.sel.transpontop
  }

  /** The lists with the record bucket `b` replaced by `rs`. */
  function WithRecords(ls: Lists, b: Bucket, rs: seq<DrawEntryIndex>): (r: Lists)
    requires IsRecordBucket(b)
    ensures BucketRecords(r, b) == rs
    ensures forall c :: IsRecordBucket(c) && c != b ==> BucketRecords(r, c) == BucketRecords(ls, c)
    ensures forall c :: !IsRecordBucket(c) ==> BucketIndices(r, c) == BucketIndices(ls, c)
    ensures forall list :: ListEntries(r, list) == ListEntries(ls, list)
    ensures r.scene.table == ls.scene.table && r.scene.box == ls.scene.box
    ensures r.hl.keys == ls.hl.keys && r.hl.box == ls.hl.box && r.sel.box == ls.sel.box
  {
    match b
    case TranspVCache => ls.(scene := ls.scene.(transpvcache := rs))
    case TranspOnTop => ls.(scene := ls.scene.(transpontop := rs))
    case TranspHighlight => ls.(hl := ls.hl.(transp := rs))
    case TranspSelections => ls.(sel := ls.sel.(transp := rs))
    case TranspSelectionsOnTop => ls.(sel := ls.sel.(transpontop := rs))
  }

  /** The records with each distance recomputed from the centre of its entry's box. */
  function Measured(es: seq<DrawEntry>, rs: seq<DrawEntryIndex>, p: Plane): (r: seq<DrawEntryIndex>)
    requires RecordsInRange(es, rs)
  {
    seq(|rs|, k requires 0 <= k < |rs| => DrawEntryIndex(rs[k].idx, PlaneDistance(p, Center(es[rs[k].idx].ventry.bbox))))
  }

  /** The key the transparent buckets are sorted by. */
  function Distance(r: DrawEntryIndex): real
  {
    r.distance
  }

  /**
   * The sorting step of `renderTransparency`: when `resort`, `ls1` is `ls0`
   * with the record bucket `b` re-measured against the plane `p` and sorted by
   * distance; otherwise it is `ls0`.
   */
  ghost predicate SortStep(ls0: Lists, ls1: Lists, b: Bucket, resort: bool, p: Plane)
  {
    IsRecordBucket(b) && Indexed(ls0) &&
    ls1 == WithRecords(ls0, b, BucketRecords(ls1, b)) &&
    (resort ==>
      Sorting.SortedBy(BucketRecords(ls1, b), Distance) &&
      multiset(BucketRecords(ls1, b)) == multiset(Measured(ListEntries(ls0, ListOf(b)), BucketRecords(ls0, b), p))) &&
    (!resort ==> ls1 == ls0)
  }

  /** The entry indices a record bucket names, its order and distances forgotten. */
  function RecordIds(rs: seq<DrawEntryIndex>): (r: set<nat>)
    ensures forall k :: 0 <= k < |rs| ==> rs[k].idx in r
  {
    set x | x in rs :: x.idx
  }

  /** The lists with each record bucket reduced to the entries it names: what sorting leaves alone. */
  datatype Unsorted = Unsorted(plain: Lists, ids: seq<set<nat>>)

  function Unsort(ls: Lists): Unsorted
  {
    Unsorted(Lists(ls.scene.(transpvcache := [], transpontop := []),
                   ls.hl.(transp := []),
                   ls.sel.(transp := [], transpontop := [])),
             [RecordIds(ls.scene.transpvcache), RecordIds(ls.scene.transpontop), RecordIds(ls.hl.transp),
              RecordIds(ls.sel.transp), RecordIds(ls.sel.transpontop)])
  }

  lemma {:induction false} SameIdsInRange(es: seq<DrawEntry>, xs: seq<DrawEntryIndex>, ys: seq<DrawEntryIndex>)
    requires RecordIds(xs) == RecordIds(ys) && RecordsInRange(es, ys)
    ensures RecordsInRange(es, xs)
  {
    forall j | 0 <= j < |xs|
      ensures xs[j].idx < |es|
    {
      assert xs[j].idx in RecordIds(ys);
      var y :| y in ys && y.idx == xs[j].idx;
      var k :| 0 <= k < |ys| && ys[k] == y;
    }
  }

  /** Lists that differ only in the order and distances of their records index alike. */
  lemma {:induction false} UnsortIndexed(ls0: Lists, ls1: Lists)
    requires Indexed(ls0) && Unsort(ls1) == Unsort(ls0)
    ensures Indexed(ls1)
  {
    var u0, u1 := Unsort(ls0), Unsort(ls1);
    assert u1.ids[0] == u0.ids[0] && u1.ids[1] == u0.ids[1] && u1.ids[2] == u0.ids[2];
    assert u1.ids[3] == u0.ids[3] && u1.ids[4] == u0.ids[4];
    assert ls1.scene.entries == u1.plain.scene.entries == ls0.scene.entries;
    assert ls1.hl.entries == u1.plain.hl.entries == ls0.hl.entries;
    assert ls1.sel.entries == u1.plain.sel.entries == ls0.sel.entries;
    SameIdsInRange(ls0.scene.entries, ls1.scene.transpvcache, ls0.scene.transpvcache);
    SameIdsInRange(ls0.scene.entries, ls1.scene.transpontop, ls0.scene.transpontop);
    SameIdsInRange(ls0.hl.entries, ls1.hl.transp, ls0.hl.transp);
    SameIdsInRange(ls0.sel.entries, ls1.sel.transp, ls0.sel.transp);
    SameIdsInRange(ls0.sel.entries, ls1.sel.transpontop, ls0.sel.transpontop);
  }

  /** ... and keep the renderer's invariant alike. */
  lemma {:induction false} UnsortValid(ls0: Lists, ls1: Lists, sk: set<CacheKeyPtr>, cleared: bool,
                                       sels: seq<Selection>, selsontop: seq<Selection>)
    requires ListsValid(ls0.scene, ls0.hl, ls0.sel, sk, cleared, sels, selsontop) && Unsort(ls1) == Unsort(ls0)
    ensures ListsValid(ls1.scene, ls1.hl, ls1.sel, sk, cleared, sels, selsontop)
  {
    UnsortIndexed(ls0, ls1);
    var u0, u1 := Unsort(ls0), Unsort(ls1);
    assert ls1.scene.entries == u1.plain.scene.entries == ls0.scene.entries;
    assert ls1.scene.table == u1.plain.scene.table == ls0.scene.table;
    assert ls1.hl.keys == u1.plain.hl.keys == ls0.hl.keys;
  }

  /** Re-measuring and sorting a record bucket forgets nothing `Unsort` keeps. */
  lemma {:induction false} SortedUnsort(ls: Lists, b: Bucket, p: Plane, rs: seq<DrawEntryIndex>)
    requires IsRecordBucket(b) && Indexed(ls)
    requires multiset(rs) == multiset(Measured(ListEntries(ls, ListOf(b)), BucketRecords(ls, b), p))
    ensures Unsort(WithRecords(ls, b, rs)) == Unsort(ls)
  {
    var m := Measured(ListEntries(ls, ListOf(b)), BucketRecords(ls, b), p);
    var rs0 := BucketRecords(ls, b);
    assert RecordIds(rs) == RecordIds(rs0) by {
      forall x | x in RecordIds(rs) ensures x in RecordIds(rs0) {
        var y :| y in rs && y.idx == x;
        assert y in multiset(m);
        var k :| 0 <= k < |m| && m[k] == y;
        assert rs0[k].idx == x;
      }
      forall x | x in RecordIds(rs0) ensures x in RecordIds(rs) {
        var y :| y in rs0 && y.idx == x;
        var k :| 0 <= k < |rs0| && rs0[k] == y;
        assert m[k] in multiset(rs);
        var z :| z in rs && z == m[k];
      }
    }
    match b {
      case TranspVCache =>
      case TranspOnTop =>
      case TranspHighlight =>
      case TranspSelections =>
      case TranspSelectionsOnTop =>
    }
  }
}

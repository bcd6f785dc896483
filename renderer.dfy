/**
 * The renderer of the render caches (`SoFCRenderer` and its private part).
 *
 * It keeps three draw-entry lists (the scene, the highlight and the
 * selections), the index lists ("buckets") into them that decide which loop
 * draws an entry in which pass, the cache-key table, the highlight and
 * selection key sets whose entries the scene loops skip, and the state of the
 * OpenGL material between draw calls. OpenGL calls are appended to `trace`
 * (state commands) and `draws` (geometry), and the draw-loop calls of a frame
 * to the ghost log `visits`.
 */
module Renderer {
  import opened Wrappers
  import opened CacheKeys
  import opened RenderTypes
  import opened Classify
  import opened MaterialDiff
  import opened RenderPasses
  import opened SelMaps
  import Sorting
  import opened DrawLists

  // ---------------------------------------------------------------------
  // The renderer

  datatype KeptState = KeptState(selectionkeys: set<CacheKeyPtr>, cleared: bool,
                                 selections: seq<Selection>, selectionsontop: seq<Selection>, updateselection: bool,
                                 shadowrendering: bool, shadowmapping: bool, transpshadowmapping: bool)

  /** A frame's trace ends by restoring the Inventor state and popping the OpenGL attributes. */
  predicate EndsRestored(t: seq<GLCmd>)
  {
    |t| >= 2 && t[|t| - 2] == RestoreState && t[|t| - 1] == PopAttrib
  }

  /** ... and, when shadows are deferred, queues the delayed path just before. */
  predicate QueuesDelayed(t: seq<GLCmd>)
  {
    |t| >= 3 && t[|t| - 3] == QueueDelayedPath
  }

  class Renderer {
    const params: ViewParams
    /** The material `Material::init` gives at the start of a frame. */
    const initmaterial: Material

    var scene: SceneState
    var hl: HighlightState
    var sel: SelectionState

    var highlightcaches: seq<CacheGroup>
    var hlwholeontop: bool
    var selectionkeys: set<CacheKeyPtr>

    /** The selection maps: ids up to 0, and positive ids for the on-top ones. */
    var selections: seq<Selection>
    var selectionsontop: seq<Selection>
    var updateselection: bool

    /** The normal of the view plane the transparent lists were last sorted for; None after a reset. */
    var prevplane: Option<Vec3>

    var material: Material
    var prevmaterial: Option<nat>
    var prevpass: nat
    var recheckmaterial: bool
    var notexture: bool
    var depthwriteonly: bool
    var shadowrendering: bool
    var shadowmapping: bool
    var transpshadowmapping: bool

    var trace: seq<GLCmd>
    var draws: seq<GLCmd>
    ghost var visits: seq<Visit>

    /** Set by `Clear`, which empties the key table but leaves the scene entries' counters. */
    ghost var cleared: bool

    function AllLists(): Lists
      reads this`scene, this`hl, this`sel
    {
      Lists(scene, hl, sel)
    }

    /** The draw-loop state the renderer carries between entries. */
    function Pass(): PassState
      reads this`material, this`prevmaterial, this`prevpass, this`recheckmaterial, this`trace, this`draws
    {
      PassState(material, prevmaterial, prevpass, recheckmaterial, trace, draws)
    }

    function EnvNow(): Env
      reads this`shadowmapping, this`depthwriteonly, this`notexture
    {
      Env(shadowmapping, depthwriteonly, notexture, params)
    }

    /** `hassel` of `render`: on-top selections or on-top line selections to draw. */
    function HasSel(): bool
      reads this`sel
    {
      |sel.ontop| > 0 || |sel.lineontop| > 0
    }

    /** `hasontop` of `render`: on-top triangles and on-top lines to draw. */
    function HasOnTop(): bool
      reads this`scene
    {
      |scene.trianglesontop| > 0 && |scene.linesontop| > 0
    }

    /** The fields a frame reads but, once the selection is up to date, leaves alone. */
    ghost function Kept(): KeptState
      reads this`selectionkeys, this`cleared, this`selections, this`selectionsontop, this`updateselection
      reads this`shadowrendering, this`shadowmapping, this`transpshadowmapping
    {
      KeptState(selectionkeys, cleared, selections, selectionsontop, updateselection,
                shadowrendering, shadowmapping, transpshadowmapping)
    }

    ghost predicate Valid()
      reads this`scene, this`hl, this`sel, this`selectionkeys, this`cleared, this`selections, this`selectionsontop
    {
      ListsValid(scene, hl, sel, selectionkeys, cleared, selections, selectionsontop)
    }

    constructor (p: ViewParams, init: Material)
      ensures params == p && initmaterial == init && Valid()
      ensures scene == NoScene && hl == NoHighlight && sel == NoSelection
      ensures selectionkeys == {} && selections == [] && selectionsontop == [] && highlightcaches == []
      ensures !updateselection && !hlwholeontop
      ensures !shadowrendering && !shadowmapping && !transpshadowmapping
      ensures prevplane == None && trace == [] && draws == [] && visits == []
    {
      params, initmaterial := p, init;
      scene, hl, sel := NoScene, NoHighlight, NoSelection;
      highlightcaches, hlwholeontop, selectionkeys := [], false, {};
      selections, selectionsontop, updateselection := [], [], false;
      prevplane := None;
      material, prevmaterial, prevpass, recheckmaterial := init, None, PassNormal, false;
      notexture, depthwriteonly := false, false;
      shadowrendering, shadowmapping, transpshadowmapping := false, false, false;
      trace, draws, visits := [], [], [];
      cleared := false;
    }

    // -------------------------------------------------------------------
    // Keys

    /** `applyKey`: adds `d` to the counter of every entry the table lists under `key`. */
    method ApplyKey(key: CacheKeyPtr, d: int)
      requires TableConsistent(scene.table, scene.entries)
      modifies this`scene
      ensures scene == old(scene).(entries := Bumped(old(scene.entries), scene.table, {key}, d))
      ensures TableConsistent(scene.table, scene.entries)
    {
      BumpedKeepsTable(scene.entries, scene.table, {key}, d);
      if key !in scene.table {
        return;
      }
      var ix := scene.table[key];
      ghost var es := scene.entries;
      var i := 0;
      while i < |ix|
        invariant 0 <= i <= |ix|
        invariant scene == old(scene).(entries := scene.entries) && |scene.entries| == |es|
        invariant forall j :: 0 <= j < |es| ==>
          scene.entries[j] == es[j].(skip := es[j].skip + (if j in ix[..i] then d else 0))
      {
        var idx := ix[i];
        assert idx in scene.table[key];
        assert idx !in ix[..i];
        assert forall j :: j in ix[..i + 1] <==> j in ix[..i] || j == idx by {
          assert ix[..i + 1] == ix[..i] + [idx];
        }
        var es' := scene.entries;
        scene := scene.(entries := es'[idx := es'[idx].(skip := es'[idx].skip + d)]);
        i := i + 1;
      }
      assert ix[..i] == ix;
    }

    /** `applyKeys`: applies every key of the set. */
    method ApplyKeys(keys: set<CacheKeyPtr>, d: int)
      requires TableConsistent(scene.table, scene.entries)
      modifies this`scene
      ensures scene == old(scene).(entries := Bumped(old(scene.entries), scene.table, keys, d))
      ensures TableConsistent(scene.table, scene.entries)
    {
      var rest := keys;
      while rest != {}
        invariant rest <= keys
        invariant TableConsistent(scene.table, scene.entries)
        invariant scene == old(scene).(entries := Bumped(old(scene.entries), scene.table, keys - rest, d))
        decreases |rest|
      {
        var k :| k in rest;
        ApplyKey(k, d);
        BumpedUnion(old(scene.entries), scene.table, keys - rest, k, d);
        assert keys - rest + {k} == keys - (rest - {k});
        rest := rest - {k};
      }
    }

    // -------------------------------------------------------------------
    // The scene

    /** Files the stored scene entry at `idx` as the classification loop of `setScene` does. */
    method FileScene(e: DrawEntry, idx: nat, fulltransp: bool)
      requires fulltransp == FullTransp(e.material)
      modifies this`scene
      ensures scene == FileInScene(old(scene), e, idx)
    {
      var m := e.material;
      if m.onTop && m.kind == Triangle {
        scene := scene.(trianglesontop := scene.trianglesontop + [idx]);
      }
      if !fulltransp && (!m.pervertexcolor || e.ventry.hasOpaqueParts) {
        if m.onTop {
          if m.kind != Triangle {
            scene := scene.(linesontop := scene.linesontop + [idx]);
          } else {
            scene := scene.(opaqueontop := scene.opaqueontop + [idx]);
          }
        } else {
          scene := scene.(opaquevcache := scene.opaquevcache + [idx]);
        }
      }
      if fulltransp || (m.pervertexcolor && e.ventry.hasTransparency) {
        if m.onTop {
          scene := scene.(transpontop := scene.transpontop + [DrawEntryIndex(idx, 0.0)]);
        } else {
          scene := scene.(transpvcache := scene.transpvcache + [DrawEntryIndex(idx, 0.0)]);
        }
      }
    }

    /** One iteration of the inner loop of `setScene`. */
    method ScenePush(m: Material, v: VertexCacheEntry, fulltransp: bool, ghost es: seq<DrawEntry>)
      requires fulltransp == FullTransp(m) && scene == SceneOf(es)
      modifies this`scene
      ensures scene == SceneOf(es + (if IsEmpty(v.bbox) then [] else [DrawEntry(m, v, 0)]))
    {
      var r := PushDrawEntry(scene.entries, m, v);
      if r.1 == 0 {
        assert es + [] == es;
        return;
      }
      var idx := r.1 - 1;
      var e := DrawEntry(m, v, 0);
      var t := scene.table;
      scene := scene.(entries := r.0, box := Extend(scene.box, v.bbox),
                      table := t[v.key := (if v.key in t then t[v.key] else []) + [idx]]);
      FileScene(e, idx, fulltransp);
      SceneOfSnoc(es, e);
    }

    /** The inner loop of `setScene`: stores the non-empty caches of one material. */
    method PushGroup(m: Material, vs: seq<VertexCacheEntry>, fulltransp: bool, ghost es: seq<DrawEntry>)
      requires fulltransp == FullTransp(m) && scene == SceneOf(es)
      modifies this`scene
      ensures scene == SceneOf(es + KeptEntries(m, vs))
    {
      var k := 0;
      ghost var acc := es;
      assert vs[..0] == [] && es + KeptEntries(m, []) == es;
      while k < |vs|
        invariant 0 <= k <= |vs|
        invariant acc == es + KeptEntries(m, vs[..k])
        invariant scene == SceneOf(acc)
      {
        ScenePush(m, vs[k], fulltransp, acc);
        KeptGrows(m, vs, k, es);
        acc := acc + (if IsEmpty(vs[k].bbox) then [] else [DrawEntry(m, vs[k], 0)]);
        k := k + 1;
      }
      assert vs[..k] == vs;
    }

    /** The caches of one material, unless there are none or the material is invisible. */
    method SceneGroup(g: CacheGroup, ghost es: seq<DrawEntry>)
      requires scene == SceneOf(es)
      modifies this`scene
      ensures scene == SceneOf(es + GroupEntries(g))
    {
      var m, vs := g.material, g.ventries;
      if |vs| == 0 || m.surface.drawstyle == Invisible {
        assert es + GroupEntries(g) == es;
        return;
      }
      var fulltransp := m.transptexture;
      if !fulltransp && !m.pervertexcolor {
        fulltransp := m.shading.diffuse & 0xff != 0xff;
      }
      PushGroup(m, vs, fulltransp, es);
    }

    /** The loops of `setScene` over a vertex-cache map, from an empty scene. */
    method BuildScene(cache: seq<CacheGroup>)
      modifies this`scene
      ensures scene == SceneOf(MapEntries(cache))
    {
      scene := NoScene;
      var i := 0;
      assert cache[..0] == [];
      while i < |cache|
        invariant 0 <= i <= |cache|
        invariant scene == SceneOf(MapEntries(cache[..i]))
      {
        SceneGroup(cache[i], MapEntries(cache[..i]));
        MapEntriesGrow(cache, i);
        i := i + 1;
      }
      assert cache[..i] == cache;
    }

    /** The scene part of `setScene`: the new entries, table and buckets, with the highlight keys applied. */
    method RebuildScene(cache: seq<CacheGroup>)
      modifies this`scene
      ensures scene == FreshScene(MapEntries(cache), hl.keys)
      ensures SceneIndexed(scene) && Counted(scene, hl.keys, {}, false)
    {
      BuildScene(cache);
      SceneOfClassified(MapEntries(cache));
      FreshSceneValid(cache, hl.keys);
      ApplyKeys(hl.keys, 1);
    }

    /**
     * `setScene`: rebuilds the scene entries, the key table and the scene
     * buckets from a vertex-cache map, applies the highlight keys to the new
     * entries again, and forgets the selection keys, so that the next
     * `updateSelection` files the selections anew.
     */
    method SetScene(cache: seq<CacheGroup>)
      requires Valid()
      modifies this`scene, this`prevplane, this`selectionkeys, this`updateselection, this`cleared
      ensures Valid()
      ensures scene == FreshScene(MapEntries(cache), hl.keys)
      ensures prevplane == None && selectionkeys == {} && updateselection
    {
      prevplane := None;
      RebuildScene(cache);
      selectionkeys := {};
      cleared := false;
      updateselection := true;
    }
  
    // -------------------------------------------------------------------
    // The highlight

    /**
     * `clearHighlight`: drops the highlight list and its buckets and takes the
     * highlight keys' counts off the scene entries again.
     */
    method ClearHighlight()
      requires Valid()
      modifies this`scene, this`hl, this`highlightcaches, this`hlwholeontop
      ensures Valid()
      ensures hl == NoHighlight && highlightcaches == [] && !hlwholeontop
      ensures scene == old(scene).(entries := Bumped(old(scene.entries), scene.table, old(hl.keys), -1))
    {
      hlwholeontop := false;
      highlightcaches := [];
      CountedRemoveHighlight(scene, hl.keys, selectionkeys, cleared);
      ApplyKeys(hl.keys, -1);
      hl := NoHighlight;
    }

    /** Files the stored highlight entry at `idx` as the loop of `setHighlight` does. */
    method FileHighlight(e: DrawEntry, idx: nat, fulltransp: bool)
      requires fulltransp == FullTransp(e.material)
      modifies this`hl
      ensures hl == FileInHighlight(old(hl), e, idx)
    {
      var m := e.material;
      if FlagTransparency in m.shading.overrideflags {
        if m.shading.diffuse & 0xff != 0xff {
          hl := hl.(transp := hl.transp + [DrawEntryIndex(idx, 0.0)]);
        } else if m.kind == Triangle {
          hl := hl.(opaqueidx := hl.opaqueidx + [idx]);
        } else {
          hl := hl.(lines := hl.lines + [idx]);
        }
      } else {
        if !fulltransp && (!m.pervertexcolor || e.ventry.hasOpaqueParts) {
          if m.kind == Triangle {
            hl := hl.(opaqueidx := hl.opaqueidx + [idx]);
          } else {
            hl := hl.(lines := hl.lines + [idx]);
          }
        }
        if fulltransp || (m.pervertexcolor && e.ventry.hasTransparency) {
          hl := hl.(transp := hl.transp + [DrawEntryIndex(idx, 0.0)]);
        }
      }
    }

    /** One iteration of the inner loop of `setHighlight`. */
    method HighlightPush(m: Material, v: VertexCacheEntry, fulltransp: bool, ghost es: seq<DrawEntry>)
      requires fulltransp == FullTransp(m) && hl == HighlightOf(es)
      modifies this`hl
      ensures hl == HighlightOf(es + (if IsEmpty(v.bbox) then [] else [DrawEntry(m, v, 0)]))
    {
      var r := PushDrawEntry(hl.entries, m, v);
      if r.1 == 0 {
        assert es + [] == es;
        return;
      }
      var idx := r.1 - 1;
      var e := DrawEntry(m, v, 0);
      hl := hl.(entries := r.0);
      if m.onTop && (m.partialhighlight || (v.partidx < 0 && v.isWholeCache)) {
        hl := hl.(keys := hl.keys + {v.key}, box := Extend(hl.box, v.bbox));
      }
      FileHighlight(e, idx, fulltransp);
      HighlightOfSnoc(es, e);
    }

    /** The inner loop of `setHighlight`: stores the non-empty caches of one material. */
    method HighlightPushGroup(m: Material, vs: seq<VertexCacheEntry>, fulltransp: bool, ghost es: seq<DrawEntry>)
      requires fulltransp == FullTransp(m) && hl == HighlightOf(es)
      modifies this`hl
      ensures hl == HighlightOf(es + KeptEntries(m, vs))
    {
      var k := 0;
      ghost var acc := es;
      assert vs[..0] == [] && es + KeptEntries(m, []) == es;
      while k < |vs|
        invariant 0 <= k <= |vs|
        invariant acc == es + KeptEntries(m, vs[..k])
        invariant hl == HighlightOf(acc)
      {
        HighlightPush(m, vs[k], fulltransp, acc);
        KeptGrows(m, vs, k, es);
        acc := acc + (if IsEmpty(vs[k].bbox) then [] else [DrawEntry(m, vs[k], 0)]);
        k := k + 1;
      }
      assert vs[..k] == vs;
    }

    /** The caches of one highlight material, unless there are none or the material is invisible. */
    method HighlightGroup(g: CacheGroup, ghost es: seq<DrawEntry>)
      requires hl == HighlightOf(es)
      modifies this`hl
      ensures hl == HighlightOf(es + GroupEntries(g))
    {
      var m, vs := g.material, g.ventries;
      if |vs| == 0 || m.surface.drawstyle == Invisible {
        assert es + GroupEntries(g) == es;
        return;
      }
      var fulltransp := m.transptexture;
      if !fulltransp && !m.pervertexcolor {
        fulltransp := m.shading.diffuse & 0xff != 0xff;
      }
      HighlightPushGroup(m, vs, fulltransp, es);
    }

    /** The loops of `setHighlight` over the highlight caches, from an empty highlight list. */
    method BuildHighlight(caches: seq<CacheGroup>)
      modifies this`hl
      ensures hl == ClassifiedHighlight(MapEntries(caches)) && HighlightIndexed(hl)
    {
      hl := NoHighlight;
      var i := 0;
      assert caches[..0] == [];
      while i < |caches|
        invariant 0 <= i <= |caches|
        invariant hl == HighlightOf(MapEntries(caches[..i]))
      {
        HighlightGroup(caches[i], MapEntries(caches[..i]));
        MapEntriesGrow(caches, i);
        i := i + 1;
      }
      assert caches[..i] == caches;
      HighlightOfClassified(MapEntries(caches));
      HighlightOfIndexed(MapEntries(caches));
    }

    /**
     * `setHighlight`: replaces the highlight by the entries of `caches`, filed
     * in the highlight buckets; the scene entries of the objects highlighted
     * whole on top are hidden by the new highlight keys instead of the old ones.
     */
    method SetHighlight(caches: seq<CacheGroup>, wholeontop: bool)
      requires Valid()
      modifies this`scene, this`hl, this`highlightcaches, this`hlwholeontop
      ensures Valid()
      ensures hl == ClassifiedHighlight(MapEntries(caches))
      ensures highlightcaches == caches && hlwholeontop == wholeontop
      ensures scene == old(scene).(entries := Bumped(Bumped(old(scene.entries), scene.table, old(hl.keys), -1), scene.table, hl.keys, 1))
    {
      ClearHighlight();
      highlightcaches := caches;
      hlwholeontop := wholeontop;
      BuildHighlight(caches);
      CountedAddHighlight(scene, hl.keys, selectionkeys, cleared);
      ApplyKeys(hl.keys, 1);
    }
  
    // -------------------------------------------------------------------
    // The selections

    /** `addSelection`: registers the caches under `id`, in the on-top map when the id is positive. */
    method AddSelection(id: int, caches: seq<CacheGroup>)
      requires Valid()
      modifies this`selections, this`selectionsontop, this`updateselection
      ensures Valid() && updateselection
      ensures if id > 0 then selectionsontop == Put(old(selectionsontop), id, caches) && selections == old(selections)
              else selections == Put(old(selections), id, caches) && selectionsontop == old(selectionsontop)
    {
      if id > 0 {
        selectionsontop := Put(selectionsontop, id, caches);
      } else {
        selections := Put(selections, id, caches);
      }
      updateselection := true;
    }

    /** `removeSelection`: drops the selection with that id; the lists need an update only if there was one. */
    method RemoveSelection(id: int)
      requires Valid()
      modifies this`selections, this`selectionsontop, this`updateselection
      ensures Valid()
      ensures if id > 0 then selectionsontop == Erase(old(selectionsontop), id) && selections == old(selections)
              else selections == Erase(old(selections), id) && selectionsontop == old(selectionsontop)
      ensures updateselection == (old(updateselection) || HasId(if id > 0 then old(selectionsontop) else old(selections), id))
    {
      if id > 0 {
        var n := |selectionsontop|;
        selectionsontop := Erase(selectionsontop, id);
        if |selectionsontop| != n {
          updateselection := true;
        }
      } else {
        var n := |selections|;
        selections := Erase(selections, id);
        if |selections| != n {
          updateselection := true;
        }
      }
    }

    /**
     * `checkKey`: stores a selection cache's entry unless its box is empty or
     * it repeats a whole-object entry already kept, applies the key of an
     * object selected whole for the first time, and returns the entry's
     * position plus one, or 0 when it was not kept.
     */
    method CheckKey(id: int, top: bool, m: Material, v: VertexCacheEntry, renderkeys: set<seq<int>>,
                    ghost base: SceneState, ghost st: SelState)
      returns (idx: nat, rk: set<seq<int>>)
      requires KeysApplied(scene, selectionkeys, renderkeys, base, st) && TableConsistent(base.table, base.entries)
      modifies this`scene, this`sel, this`selectionkeys
      ensures var u := SelUnit(id, top, DrawEntry(m, v, 0));
        var st' := if IsEmpty(v.bbox) then st else Classify.CheckKey(st, u);
        KeysApplied(scene, selectionkeys, rk, base, st') &&
        (idx == 0 <==> st' == st) &&
        (idx == 0 ==> sel == old(sel)) &&
        (idx != 0 ==> idx == |old(sel.entries)| + 1 && sel == AddSelected(old(sel), u) && st'.kept == st.kept + [u])
    {
      var r := PushDrawEntry(sel.entries, m, v);
      if r.1 == 0 {
        return 0, renderkeys;
      }
      var key := v.key;
      if key.None? || v.partidx >= 0 || !v.isWholeCache {
        sel := sel.(entries := r.0);
        return r.1, renderkeys;
      }
      var selkey := key.value + [v.nodeId, PrimCode(m.kind)];
      if key !in selectionkeys {
        selectionkeys := selectionkeys + {key};
        BumpedKeepsTable(base.entries, base.table, st.keys, 1);
        ApplyKey(key, 1);
        BumpedUnion(base.entries, base.table, st.keys, key, 1);
        rk := renderkeys + {selkey};
      } else if selkey !in renderkeys {
        rk := renderkeys + {selkey};
      } else {
        return 0, renderkeys;
      }
      sel := sel.(entries := r.0, box := Extend(sel.box, v.bbox));
      idx := r.1;
    }

    /** Files a kept on-top selection entry at `idx` by its primitive type and the selection id's bits. */
    method FileOnTopSelection(u: SelUnit, idx: nat)
      requires u.onTopList && u.selId > 0
      modifies this`sel
      ensures sel == FileInSelection(old(sel), u, idx, params)
    {
      match u.entry.material.kind {
        case Triangle => FileOnTopTriangle(u, idx);
        case Line => FileOnTopEdge(u, idx);
        case Point => FileOnTopEdge(u, idx);
      }
    }

    /** The `Triangle` case of the on-top switch. */
    method FileOnTopTriangle(u: SelUnit, idx: nat)
      requires u.onTopList && u.selId > 0 && u.entry.material.kind == Triangle
      modifies this`sel
      ensures sel == FileInSelection(old(sel), u, idx, params)
    {
      OnTopTriangleFiled(sel, u, idx, params);
      sel := sel.(transpontop := sel.transpontop + [DrawEntryIndex(idx, 0.0)]);
      if !HasBit(u.selId, params.selIdSelectedBit) || u.entry.material.partialhighlight {
        sel := sel.(triangleontop := sel.triangleontop + [idx]);
      }
    }

    /** The `Line` and `Point` cases of the on-top switch. */
    method FileOnTopEdge(u: SelUnit, idx: nat)
      requires u.onTopList && u.selId > 0 && u.entry.material.kind != Triangle
      modifies this`sel
      ensures sel == FileInSelection(old(sel), u, idx, params)
    {
      OnTopEdgeFiled(sel, u, idx, params);
      var id := u.selId;
      if HasBit(id, params.selIdPartialBit) {
        if u.entry.material.kind == Line {
          sel := sel.(lineontop := sel.lineontop + [idx]);
        } else {
          sel := sel.(pointontop := sel.pointontop + [idx]);
        }
      } else if !HasBit(id, params.selIdFullBit) || u.entry.material.partialhighlight {
        sel := sel.(ontop := sel.ontop + [idx]);
      } else {
        sel := sel.(transpontop := sel.transpontop + [DrawEntryIndex(idx, 0.0)]);
      }
    }

    /** Files a kept selection entry of the other map at `idx` by the opaque and transparent rules. */
    method FileOtherSelection(u: SelUnit, idx: nat, fulltransp: bool)
      requires !u.onTopList && fulltransp == FullTransp(u.entry.material)
      modifies this`sel
      ensures sel == FileInSelection(old(sel), u, idx, params)
    {
      var m := u.entry.material;
      var s := sel;
      if !fulltransp && (!m.pervertexcolor || u.entry.ventry.hasOpaqueParts) {
        s := s.(opaqueidx := s.opaqueidx + [idx]);
      }
      if fulltransp || (m.pervertexcolor && u.entry.ventry.hasTransparency) {
        s := s.(transp := s.transp + [DrawEntryIndex(idx, 0.0)]);
      }
      OtherFiled(sel, u, idx, params);
      sel := s;
    }

    /**
     * One iteration of the innermost loops of `updateSelection`: `checkKey`,
     * then the filing of a kept entry.
     */
    method SelectEntry(id: int, top: bool, m: Material, v: VertexCacheEntry, fulltransp: bool,
                       renderkeys: set<seq<int>>, ghost base: SceneState, ghost st: SelState)
      returns (rk: set<seq<int>>)
      requires KeysApplied(scene, selectionkeys, renderkeys, base, st) && TableConsistent(base.table, base.entries)
      requires (!top ==> fulltransp == FullTransp(m)) && (top ==> id > 0)
      modifies this`scene, this`sel, this`selectionkeys
      ensures var u, st1 := SelUnit(id, top, DrawEntry(m, v, 0)), Checked(st, id, top, m, v);
        KeysApplied(scene, selectionkeys, rk, base, st1) &&
        (st1 == st ==> sel == old(sel)) &&
        (st1 != st ==> st1.kept == st.kept + [u] && sel == StoreSelection(old(sel), u, params))
    {
      var u := SelUnit(id, top, DrawEntry(m, v, 0));
      var idx;
      idx, rk := CheckKey(id, top, m, v, renderkeys, base, st);
      if idx != 0 {
        if top {
          FileOnTopSelection(u, idx - 1);
        } else {
          FileOtherSelection(u, idx - 1, fulltransp);
        }
      }
    }

    /** The innermost loop of `updateSelection` over the caches of one material. */
    method SelectEntries(id: int, top: bool, m: Material, vs: seq<VertexCacheEntry>, fulltransp: bool,
                         renderkeys: set<seq<int>>, ghost base: SceneState, ghost done: seq<SelUnit>)
      returns (rk: set<seq<int>>)
      requires Selecting(scene, sel, selectionkeys, renderkeys, base, done, params)
      requires TableConsistent(base.table, base.entries)
      requires (!top ==> fulltransp == FullTransp(m)) && (top ==> id > 0)
      modifies this`scene, this`sel, this`selectionkeys
      ensures Selecting(scene, sel, selectionkeys, rk, base, done + Tag(id, top, KeptEntries(m, vs)), params)
    {
      rk := renderkeys;
      var k := 0;
      ghost var acc := done;
      assert vs[..0] == [] && done + Tag(id, top, KeptEntries(m, [])) == done;
      while k < |vs|
        invariant 0 <= k <= |vs|
        invariant acc == done + Tag(id, top, KeptEntries(m, vs[..k]))
        invariant Selecting(scene, sel, selectionkeys, rk, base, acc, params)
      {
        ghost var sel0 := sel;
        rk := SelectEntry(id, top, m, vs[k], fulltransp, rk, base, CheckKeys(acc));
        CandidateChecked(acc, id, top, m, vs[k], sel0, sel, params, scene, selectionkeys, rk, base);
        CandidateGrows(id, top, m, vs, k, done);
        acc := acc + Candidate(id, top, m, vs[k]);
        k := k + 1;
      }
      assert vs[..k] == vs;
    }

    /** The caches of one material of a selection, unless there are none or the material is invisible. */
    method SelectGroup(id: int, top: bool, g: CacheGroup, renderkeys: set<seq<int>>,
                       ghost base: SceneState, ghost done: seq<SelUnit>)
      returns (rk: set<seq<int>>)
      requires Selecting(scene, sel, selectionkeys, renderkeys, base, done, params)
      requires TableConsistent(base.table, base.entries)
      requires top ==> id > 0
      modifies this`scene, this`sel, this`selectionkeys
      ensures Selecting(scene, sel, selectionkeys, rk, base, done + Tag(id, top, GroupEntries(g)), params)
    {
      var m, vs := g.material, g.ventries;
      if |vs| == 0 || m.surface.drawstyle == Invisible {
        assert done + Tag(id, top, GroupEntries(g)) == done;
        return renderkeys;
      }
      var fulltransp := false;
      if !top {
        fulltransp := m.transptexture;
        if !fulltransp && !m.pervertexcolor {
          fulltransp := m.shading.diffuse & 0xff != 0xff;
        }
      }
      rk := SelectEntries(id, top, m, vs, fulltransp, renderkeys, base, done);
    }

    /** The loop over the vertex-cache map of one selection. */
    method SelectCaches(id: int, top: bool, caches: seq<CacheGroup>, renderkeys: set<seq<int>>,
                        ghost base: SceneState, ghost done: seq<SelUnit>)
      returns (rk: set<seq<int>>)
      requires Selecting(scene, sel, selectionkeys, renderkeys, base, done, params)
      requires TableConsistent(base.table, base.entries)
      requires top ==> id > 0
      modifies this`scene, this`sel, this`selectionkeys
      ensures Selecting(scene, sel, selectionkeys, rk, base, done + Tag(id, top, MapEntries(caches)), params)
    {
      rk := renderkeys;
      var i := 0;
      assert caches[..0] == [] && done + Tag(id, top, MapEntries([])) == done;
      while i < |caches|
        invariant 0 <= i <= |caches|
        invariant Selecting(scene, sel, selectionkeys, rk, base, done + Tag(id, top, MapEntries(caches[..i])), params)
      {
        rk := SelectGroup(id, top, caches[i], rk, base, done + Tag(id, top, MapEntries(caches[..i])));
        CandidatesGrow(id, top, caches, i, done);
        i := i + 1;
      }
      assert caches[..i] == caches;
    }

    /** The loop of `updateSelection` over one selection map. */
    method SelectMap(sels: seq<Selection>, top: bool, renderkeys: set<seq<int>>,
                     ghost base: SceneState, ghost done: seq<SelUnit>)
      returns (rk: set<seq<int>>)
      requires Selecting(scene, sel, selectionkeys, renderkeys, base, done, params)
      requires TableConsistent(base.table, base.entries)
      requires top ==> forall s :: s in sels ==> s.id > 0
      modifies this`scene, this`sel, this`selectionkeys
      ensures Selecting(scene, sel, selectionkeys, rk, base, done + SelUnits(sels, top), params)
    {
      rk := renderkeys;
      var i := 0;
      ghost var acc := done;
      assert sels[..0] == [] && done + SelUnits([], top) == done;
      while i < |sels|
        invariant 0 <= i <= |sels|
        invariant acc == done + SelUnits(sels[..i], top)
        invariant Selecting(scene, sel, selectionkeys, rk, base, acc, params)
      {
        var s := sels[i];
        assert top ==> s.id > 0 by { assert s in sels; }
        rk := SelectCaches(s.id, top, s.caches, rk, base, acc);
        SelUnitsGrow(sels, top, i, done);
        acc := acc + Tag(s.id, top, MapEntries(s.caches));
        i := i + 1;
      }
      assert sels[..i] == sels;
    }
  
    /** Both loops of `updateSelection`: the on-top map, then the other one. */
    method SelectAll(ghost base: SceneState) returns (rk: set<seq<int>>)
      requires Selecting(scene, sel, selectionkeys, {}, base, [], params)
      requires TableConsistent(base.table, base.entries) && SelectionMaps(selections, selectionsontop)
      modifies this`scene, this`sel, this`selectionkeys
      ensures Selecting(scene, sel, selectionkeys, rk, base, SelectionCandidates(selections, selectionsontop), params)
    {
      rk := SelectMap(selectionsontop, true, {}, base, []);
      assert [] + SelUnits(selectionsontop, true) == SelUnits(selectionsontop, true);
      rk := SelectMap(selections, false, rk, base, SelUnits(selectionsontop, true));
    }

    /** The rebuilding part of `updateSelection`. */
    method RebuildSelection()
      requires Valid()
      modifies this`scene, this`sel, this`selectionkeys
      ensures Valid()
      ensures Reselected(old(scene), old(selectionkeys), scene, sel, selectionkeys, selections, selectionsontop, params)
    {
      CountedRemoveSelection(scene, hl.keys, selectionkeys, cleared);
      ApplyKeys(selectionkeys, -1);
      selectionkeys := {};
      sel := NoSelection;
      ghost var base := scene;
      SelectingStart(base, params);
      var rk := SelectAll(base);
      ghost var st := CheckKeys(SelectionCandidates(selections, selectionsontop));
      SelectionOfClassified(st.kept, params);
      SelectionOfIndexed(st.kept, params);
      CountedAddSelection(base, hl.keys, st.keys, cleared);
    }

    /**
     * `updateSelection`: when the selections changed, rebuilds the selection
     * list from the on-top map and then the other map, keeping each
     * whole-object entry once, and hides the scene entries of the objects
     * selected whole by the new selection keys instead of the old ones.
     */
    method UpdateSelection()
      requires Valid()
      modifies this`scene, this`sel, this`selectionkeys, this`updateselection
      ensures Valid() && !updateselection
      ensures !old(updateselection) ==> scene == old(scene) && sel == old(sel) && selectionkeys == old(selectionkeys)
      ensures old(updateselection) ==>
        Reselected(old(scene), old(selectionkeys), scene, sel, selectionkeys, selections, selectionsontop, params)
    {
      if !updateselection {
        return;
      }
      updateselection := false;
      RebuildSelection();
    }

    /**
     * `getBoundingBox`: brings the selection list up to date, then extends
     * `bbox` by the scene, highlight and selection boxes; the result is the
     * smallest box holding all four.
     */
    method GetBoundingBox(bbox: Box) returns (r: Box)
      requires Valid()
      modifies this`scene, this`sel, this`selectionkeys, this`updateselection
      ensures Valid() && !updateselection
      ensures !old(updateselection) ==> scene == old(scene) && sel == old(sel) && selectionkeys == old(selectionkeys)
      ensures old(updateselection) ==>
        Reselected(old(scene), old(selectionkeys), scene, sel, selectionkeys, selections, selectionsontop, params)
      ensures Contains(r, bbox) && Contains(r, scene.box) && Contains(r, hl.box) && Contains(r, sel.box)
      ensures forall c :: Contains(c, bbox) && Contains(c, scene.box) && Contains(c, hl.box) && Contains(c, sel.box) ==> Contains(c, r)
    {
      UpdateSelection();
      r := bbox;
      if !IsEmpty(scene.box) {
        r := Extend(r, scene.box);
      }
      if !IsEmpty(hl.box) {
        r := Extend(r, hl.box);
      }
      if !IsEmpty(sel.box) {
        r := Extend(r, sel.box);
      }
      UnionOfFour(bbox, scene.box, hl.box, sel.box);
    }

    /**
     * `clear`: empties every bucket, both selection maps, the selection and
     * highlight keys, the highlight caches and the key table, and resets the
     * stored view plane; the three entry lists and their boxes stay.
     */
    method Clear()
      modifies this`prevplane, this`scene, this`hl, this`sel, this`selections, this`selectionsontop
      modifies this`selectionkeys, this`highlightcaches, this`cleared
      ensures Valid()
      ensures prevplane == None && selections == [] && selectionsontop == [] && selectionkeys == {} && highlightcaches == []
      ensures scene == NoScene.(entries := old(scene.entries), box := old(scene.box))
      ensures hl == NoHighlight.(entries := old(hl.entries), box := old(hl.box))
      ensures sel == NoSelection.(entries := old(sel.entries), box := old(sel.box))
    {
      prevplane := None;
      scene := NoScene.(entries := scene.entries, box := scene.box);
      sel := NoSelection.(entries := sel.entries, box := sel.box);
      selections, selectionsontop, selectionkeys := [], [], {};
      highlightcaches := [];
      hl := NoHighlight.(entries := hl.entries, box := hl.box);
      cleared := true;
      ClearedValid(scene.entries, scene.box, hl.entries, hl.box, sel.entries, sel.box);
    }
  
    // -------------------------------------------------------------------
    // Drawing

    /** `applyMaterial`: moves the applied material to `next`, unless the shadow map refuses it. */
    method ApplyMaterial(next: Material, transp: bool, pass: nat) returns (ok: bool)
      modifies this`material, this`trace
      ensures ok <==> !Refused(next, EnvNow())
      ensures Pass() == Applying(old(Pass()), next, transp, pass, EnvNow())
      ensures !ok ==> material == old(material) && trace == old(trace)
    {
      var a := Apply(material, next, prevmaterial.None?, transp, pass, EnvNow());
      ok, material, trace := a.ok, a.state, trace + a.cmds;
    }

    /** The opaque loop's material check: applies the entry's material and records it with the pass. */
    method OpaqueApply(e: DrawEntry, pass: nat) returns (ok: bool)
      modifies this`material, this`prevmaterial, this`prevpass, this`recheckmaterial, this`trace
      ensures ok <==> !Refused(e.material, EnvNow())
      ensures ok ==> Pass() == OpaqueApplied(old(Pass()), e, pass, EnvNow())
      ensures !ok ==> Pass() == old(Pass())
    {
      ok := ApplyMaterial(e.material, false, pass);
      if ok {
        RecordMaterial(e, pass);
      }
    }

    /** After an accepted apply: the entry's material and the pass are remembered, the recheck is done. */
    method RecordMaterial(e: DrawEntry, pass: nat)
      modifies this`prevmaterial, this`prevpass, this`recheckmaterial
      ensures Pass() == old(Pass()).(prevmaterial := Some(e.material.id), prevpass := pass, recheck := false)
    {
      prevpass, recheckmaterial, prevmaterial := pass, false, Some(e.material.id);
    }

    /** The transparency loop's material check: applies the entry's material as transparent. */
    method TranspApply(e: DrawEntry) returns (ok: bool)
      modifies this`material, this`prevmaterial, this`recheckmaterial, this`trace
      ensures ok <==> !Refused(e.material, EnvNow())
      ensures ok ==> Pass() == TranspApplied(old(Pass()), e, EnvNow())
      ensures !ok ==> Pass() == old(Pass())
    {
      ok := ApplyMaterial(e.material, true, PassNormal);
      if ok {
        RecordTranspMaterial(e);
      }
    }

    /** After an accepted apply in the transparency loop: the entry's material is remembered, the recheck is done. */
    method RecordTranspMaterial(e: DrawEntry)
      modifies this`prevmaterial, this`recheckmaterial
      ensures Pass() == old(Pass()).(prevmaterial := Some(e.material.id), recheck := false)
    {
      recheckmaterial, prevmaterial := false, Some(e.material.id);
    }

    /** `renderLines`: nothing while writing depth only or rendering the shadow map. */
    method RenderLines(list: DrawList, idx: nat)
      modifies this`draws
      ensures draws == old(draws) + LineDraw(list, idx, EnvNow())
    {
      if depthwriteonly || shadowmapping {
        return;
      }
      draws := draws + [DrawLines(list, idx)];
    }

    /** `renderPoints`: as lines; hidden vertices of whole outlined objects are left out. */
    method RenderPoints(e: DrawEntry, list: DrawList, idx: nat)
      modifies this`draws
      ensures draws == old(draws) + PointDraw(e, list, idx, EnvNow())
    {
      if depthwriteonly || shadowmapping {
        return;
      }
      if !params.hiddenLineHideVertex || e.ventry.partidx >= 0 || !e.material.outline {
        draws := draws + [DrawPoints(list, idx)];
      }
    }

    /** The primitive switch of the opaque loop. */
    method OpaqueGeometry(e: DrawEntry, list: DrawList, idx: nat)
      modifies this`draws
      ensures draws == old(draws) + OpaqueDraw(e, list, idx, EnvNow())
    {
      match e.material.kind {
        case Triangle =>
          if list != SceneList || !e.material.outline || !params.hiddenLineHideFace {
            draws := draws + [DrawTriangles(list, idx)];
          }
        case Line =>
          RenderLines(list, idx);
        case Point =>
          RenderPoints(e, list, idx);
      }
    }

    /** The draw step of the opaque loop: lighting is dropped for good when the cache has no normals. */
    method OpaqueDrawStep(e: DrawEntry, list: DrawList, idx: nat)
      modifies this`material, this`trace, this`draws
      ensures Pass() == DrawOpaque(old(Pass()), e, list, idx, EnvNow())
    {
      if material.switches.lightmodel != BaseColor && !e.ventry.hasNormals {
        material := material.(switches := material.switches.(lightmodel := BaseColor));
        trace := trace + [Disable(Lighting)];
      }
      OpaqueGeometry(e, list, idx);
    }

    /** One iteration of the loop of `renderOpaque`. */
    method OpaqueStep(e: DrawEntry, list: DrawList, idx: nat, pass: nat)
      modifies this`material, this`prevmaterial, this`prevpass, this`recheckmaterial, this`trace, this`draws
      ensures Pass() == OpaqueEntry(old(Pass()), e, list, idx, pass, EnvNow())
    {
      ghost var st := Pass();
      if e.skip != 0 && !shadowmapping
         && ((!params.sectionConcave && !params.noSectionOnTop) || |e.material.clippers| == 0) {
        OpaqueEntrySkips(st, e, list, idx, pass, EnvNow());
        return;
      }
      if recheckmaterial || prevpass != pass || prevmaterial != Some(e.material.id) {
        var ok := OpaqueApply(e, pass);
        if !ok {
          OpaqueEntrySkips(st, e, list, idx, pass, EnvNow());
          return;
        }
        OpaqueEntryApplies(st, e, list, idx, pass, EnvNow());
      } else {
        OpaqueEntryKeeps(st, e, list, idx, pass, EnvNow());
      }
      OpaqueDrawStep(e, list, idx);
    }

    /** One turn of the opaque loop: the run over `ix[..i]` grows by the entry at `ix[i]`. */
    method OpaqueIter(ghost st: PassState, es: seq<DrawEntry>, ix: seq<nat>, i: nat, list: DrawList, pass: nat)
      requires InRange(es, ix) && i < |ix|
      requires InRange(es, ix[..i]) && Pass() == OpaqueRun(st, es, ix[..i], list, pass, EnvNow())
      modifies this`material, this`prevmaterial, this`prevpass, this`recheckmaterial, this`trace, this`draws
      ensures InRange(es, ix[..i + 1]) && Pass() == OpaqueRun(st, es, ix[..i + 1], list, pass, EnvNow())
    {
      OpaqueStep(es[ix[i]], list, ix[i], pass);
      OpaqueRunGrow(st, es, ix, i, list, pass, EnvNow());
    }

    /** The loop of `renderOpaque` over the plain bucket `b`. */
    method OpaqueLoop(b: Bucket, pass: nat)
      requires !IsRecordBucket(b) && Indexed(AllLists())
      modifies this`material, this`prevmaterial, this`prevpass, this`recheckmaterial, this`trace, this`draws
      ensures Pass() == OpaqueRun(old(Pass()), ListEntries(AllLists(), ListOf(b)), BucketIndices(AllLists(), b), ListOf(b), pass, EnvNow())
    {
      var list := ListOf(b);
      var es, ix := ListEntries(AllLists(), list), BucketIndices(AllLists(), b);
      ghost var st := Pass();
      assert ix[..0] == [];
      var i := 0;
      while i < |ix|
        invariant 0 <= i <= |ix| && InRange(es, ix[..i])
        invariant Pass() == OpaqueRun(st, es, ix[..i], list, pass, EnvNow())
      {
        OpaqueIter(st, es, ix, i, list, pass);
        i := i + 1;
      }
      assert ix[..i] == ix;
    }

    /**
     * `renderOpaque`: the opaque loop over the plain bucket `b` in the given
     * pass; nothing is drawn while a transparent shadow map is rendered.
     */
    method RenderOpaque(b: Bucket, pass: nat)
      requires !IsRecordBucket(b) && Indexed(AllLists())
      modifies this`material, this`prevmaterial, this`prevpass, this`recheckmaterial, this`trace, this`draws
      modifies this`visits
      ensures visits == old(visits) + [VOpaque(ListOf(b), b, pass, depthwriteonly)]
      ensures Pass() == if transpshadowmapping then old(Pass())
        else OpaqueRun(old(Pass()), ListEntries(AllLists(), ListOf(b)), BucketIndices(AllLists(), b), ListOf(b), pass, EnvNow())
    {
      if !transpshadowmapping {
        OpaqueLoop(b, pass);
      }
      visits := visits + [VOpaque(ListOf(b), b, pass, depthwriteonly)];
    }

    /** The primitive switch of the transparency loop. */
    method TranspGeometry(e: DrawEntry, list: DrawList, idx: nat, notriangle: bool)
      modifies this`draws
      ensures draws == old(draws) + TranspDraw(e, list, idx, EnvNow(), notriangle)
    {
      match e.material.kind {
        case Line =>
          RenderLines(list, idx);
        case Point =>
          RenderPoints(e, list, idx);
        case Triangle =>
          if !notriangle {
            draws := draws + [DrawTriangles(list, idx)];
          }
      }
    }

    /** The draw step of the transparency loop: lighting is switched off around a cache without normals. */
    method TranspDrawStep(e: DrawEntry, list: DrawList, idx: nat, notriangle: bool)
      modifies this`trace, this`draws
      ensures Pass() == DrawTransp(old(Pass()), e, list, idx, EnvNow(), notriangle)
    {
      var overridelightmodel := material.switches.lightmodel != BaseColor && !e.ventry.hasNormals;
      if overridelightmodel {
        trace := trace + [Disable(Lighting)];
      }
      TranspGeometry(e, list, idx, notriangle);
      if overridelightmodel {
        trace := trace + [Enable(Lighting)];
      }
    }

    /** One iteration of the loop of `renderTransparency`. */
    method TranspStep(e: DrawEntry, list: DrawList, idx: nat, notriangle: bool)
      modifies this`material, this`prevmaterial, this`prevpass, this`recheckmaterial, this`trace, this`draws
      ensures Pass() == TranspEntry(old(Pass()), e, list, idx, EnvNow(), notriangle)
    {
      ghost var st := Pass();
      if e.skip != 0 && !shadowmapping {
        TranspEntrySkips(st, e, list, idx, EnvNow(), notriangle);
        return;
      }
      if recheckmaterial || prevmaterial != Some(e.material.id) {
        var ok := TranspApply(e);
        if !ok {
          TranspEntrySkips(st, e, list, idx, EnvNow(), notriangle);
          return;
        }
        TranspEntryApplies(st, e, list, idx, EnvNow(), notriangle);
      } else {
        TranspEntryKeeps(st, e, list, idx, EnvNow(), notriangle);
      }
      TranspDrawStep(e, list, idx, notriangle);
    }

    /** One turn of the transparency loop: the run over `rs[..i]` grows by the entry of `rs[i]`. */
    method TranspIter(ghost st: PassState, es: seq<DrawEntry>, rs: seq<DrawEntryIndex>, i: nat, list: DrawList, notriangle: bool)
      requires RecordsInRange(es, rs) && i < |rs|
      requires RecordsInRange(es, rs[..i]) && Pass() == TranspRun(st, es, rs[..i], list, EnvNow(), notriangle)
      modifies this`material, this`prevmaterial, this`prevpass, this`recheckmaterial, this`trace, this`draws
      ensures RecordsInRange(es, rs[..i + 1]) && Pass() == TranspRun(st, es, rs[..i + 1], list, EnvNow(), notriangle)
    {
      TranspStep(es[rs[i].idx], list, rs[i].idx, notriangle);
      TranspRunGrow(st, es, rs, i, list, EnvNow(), notriangle);
    }

    /** The loop of `renderTransparency` over the records `rs` of `es`. */
    method TranspEntries(es: seq<DrawEntry>, rs: seq<DrawEntryIndex>, list: DrawList, notriangle: bool)
      requires RecordsInRange(es, rs)
      modifies this`material, this`prevmaterial, this`prevpass, this`recheckmaterial, this`trace, this`draws
      ensures Pass() == TranspRun(old(Pass()), es, rs, list, EnvNow(), notriangle)
    {
      ghost var st := Pass();
      assert rs[..0] == [];
      var i := 0;
      while i < |rs|
        invariant 0 <= i <= |rs| && RecordsInRange(es, rs[..i])
        invariant Pass() == TranspRun(st, es, rs[..i], list, EnvNow(), notriangle)
      {
        TranspIter(st, es, rs, i, list, notriangle);
        i := i + 1;
      }
      assert rs[..i] == rs;
    }

    /** The loop of `renderTransparency` over the records `rs` of `es`, with blending on around it. */
    method TranspLoop(es: seq<DrawEntry>, rs: seq<DrawEntryIndex>, list: DrawList, notriangle: bool)
      requires RecordsInRange(es, rs)
      modifies this`material, this`prevmaterial, this`prevpass, this`recheckmaterial, this`trace, this`draws
      ensures Pass() == BlendedRun(old(Pass()), es, rs, list, EnvNow(), notriangle)
    {
      ghost var st := Pass();
      trace := trace + [Enable(Blend), BlendFunc(false)];
      TranspEntries(es, rs, list, notriangle);
      ghost var run := Pass();
      trace := trace + [Disable(Blend)];
      BlendedRunIs(st, es, rs, list, EnvNow(), notriangle, run);
    }

    /**
     * Gives every record of the bucket `b` the distance of its entry's box
     * centre from the plane, then sorts the bucket by distance.
     */
    method MeasureAndSort(b: Bucket, p: Plane)
      requires IsRecordBucket(b) && Indexed(AllLists())
      modifies this`scene, this`hl, this`sel
      ensures AllLists() == WithRecords(old(AllLists()), b, BucketRecords(AllLists(), b))
      ensures Sorting.SortedBy(BucketRecords(AllLists(), b), Distance)
      ensures multiset(BucketRecords(AllLists(), b))
           == multiset(Measured(ListEntries(old(AllLists()), ListOf(b)), BucketRecords(old(AllLists()), b), p))
    {
      var ls := AllLists();
      var es, rs := ListEntries(ls, ListOf(b)), BucketRecords(ls, b);
      var a := new DrawEntryIndex[|rs|](k requires 0 <= k < |rs| => rs[k]);
      var i := 0;
      while i < a.Length
        invariant 0 <= i <= a.Length
        invariant forall k :: 0 <= k < i ==> a[k] == Measured(es, rs, p)[k]
        invariant forall k :: i <= k < a.Length ==> a[k] == rs[k]
      {
        a[i] := DrawEntryIndex(a[i].idx, PlaneDistance(p, Center(es[a[i].idx].ventry.bbox)));
        i := i + 1;
      }
      assert a[..] == Measured(es, rs, p);
      Sorting.SortByKey(a, Distance);
      var sorted := a[..];
      var r := WithRecords(ls, b, sorted);
      scene, hl, sel := r.scene, r.hl, r.sel;
    }

    /** `renderTransparency` draws nothing: the bucket is empty, or an opaque shadow map is being rendered. */
    predicate TranspQuiet(b: Bucket)
      requires IsRecordBucket(b)
      reads this`scene, this`hl, this`sel, this`shadowmapping, this`transpshadowmapping
    {
      |BucketRecords(AllLists(), b)| == 0 || (shadowmapping && !transpshadowmapping)
    }

    /** `renderTransparency` re-measures and sorts the bucket: asked to, faces drawn, and a new view plane normal. */
    predicate Resorts(b: Bucket, sort: bool, hiddenlines: bool, p: Plane)
      requires IsRecordBucket(b)
      reads this`scene, this`hl, this`sel, this`shadowmapping, this`transpshadowmapping, this`prevplane
    {
      !TranspQuiet(b) && sort && !HidesFaces(ListOf(b), hiddenlines, params) && prevplane != Some(p.normal)
    }

    /** The sorting step of `renderTransparency`; the stored plane normal is updated when it sorts. */
    method ResortBucket(b: Bucket, sort: bool, hiddenlines: bool, p: Plane)
      requires IsRecordBucket(b) && Indexed(AllLists())
      modifies this`scene, this`hl, this`sel, this`prevplane
      ensures SortStep(old(AllLists()), AllLists(), b, old(Resorts(b, sort, hiddenlines, p)), p)
      ensures prevplane == if old(Resorts(b, sort, hiddenlines, p)) then Some(p.normal) else old(prevplane)
      ensures Unsort(AllLists()) == Unsort(old(AllLists()))
    {
      if Resorts(b, sort, hiddenlines, p) {
        prevplane := Some(p.normal);
        ghost var ls := AllLists();
        MeasureAndSort(b, p);
        SortedUnsort(ls, b, p, BucketRecords(AllLists(), b));
      } else {
        assert AllLists() == WithRecords(AllLists(), b, BucketRecords(AllLists(), b)) by {
          match b {
            case TranspVCache =>
            case TranspOnTop =>
            case TranspHighlight =>
            case TranspSelections =>
            case TranspSelectionsOnTop =>
          }
        }
      }
    }

    /** The sorting step of `renderTransparency` as the rest of the frame sees it. */
    method SortBucket(b: Bucket, sort: bool, hiddenlines: bool, p: Plane)
      requires IsRecordBucket(b) && Indexed(AllLists())
      modifies this`scene, this`hl, this`sel, this`prevplane
      ensures Indexed(AllLists()) && Unsort(AllLists()) == Unsort(old(AllLists()))
      ensures TranspQuiet(b) == old(TranspQuiet(b))
    {
      ResortBucket(b, sort, hiddenlines, p);
      UnsortIndexed(old(AllLists()), AllLists());
    }

    /**
     * The drawing part of `renderTransparency`, as seen from the frame: blending
     * brackets the loop of `TranspLoop` unless the bucket is quiet.
     */
    method BlendBucket(b: Bucket, quiet: bool, notriangle: bool)
      requires IsRecordBucket(b) && Indexed(AllLists())
      modifies this`material, this`prevmaterial, this`prevpass, this`recheckmaterial, this`trace, this`draws
      ensures quiet ==> Pass() == old(Pass())
      ensures !quiet ==> Extends(old(trace) + [Enable(Blend), BlendFunc(false)], trace) && trace[|trace| - 1] == Disable(Blend)
    {
      if !quiet {
        TranspLoop(ListEntries(AllLists(), ListOf(b)), BucketRecords(AllLists(), b), ListOf(b), notriangle);
      }
    }

    /**
     * `renderTransparency` after its sorting step, and the whole of it when it
     * is not asked to sort: nothing for a quiet bucket, otherwise the loop with
     * blending on, triangles left out of hidden-line scenes.
     */
    method DrawTransparency(b: Bucket, sort: bool, hiddenlines: bool)
      requires IsRecordBucket(b) && Indexed(AllLists())
      modifies this`material, this`prevmaterial, this`prevpass, this`recheckmaterial, this`trace, this`draws
      modifies this`visits
      ensures visits == old(visits) + [VTransp(ListOf(b), b, sort, depthwriteonly)]
      ensures TranspQuiet(b) ==> Pass() == old(Pass())
      ensures !TranspQuiet(b) ==> Extends(old(trace) + [Enable(Blend), BlendFunc(false)], trace) && trace[|trace| - 1] == Disable(Blend)
    {
      BlendBucket(b, TranspQuiet(b), HidesFaces(ListOf(b), hiddenlines, params));
      visits := visits + [VTransp(ListOf(b), b, sort, depthwriteonly)];
    }

    /**
     * `renderTransparency`: nothing for an empty bucket or while an opaque
     * shadow map is rendered; otherwise, when asked to sort and the faces are
     * drawn, re-measures and sorts the bucket if the view plane's normal
     * changed since the last sort, then runs the loop with blending on.
     */
    method RenderTransparency(b: Bucket, sort: bool, hiddenlines: bool, p: Plane)
      requires IsRecordBucket(b) && Indexed(AllLists())
      modifies this`scene, this`hl, this`sel, this`prevplane
      modifies this`material, this`prevmaterial, this`prevpass, this`recheckmaterial, this`trace, this`draws
      modifies this`visits
      ensures Unsort(AllLists()) == Unsort(old(AllLists()))
      ensures visits == old(visits) + [VTransp(ListOf(b), b, sort, depthwriteonly)]
      ensures old(TranspQuiet(b)) ==> Pass() == old(Pass())
      ensures !old(TranspQuiet(b)) ==> Extends(old(trace) + [Enable(Blend), BlendFunc(false)], trace) && trace[|trace| - 1] == Disable(Blend)
    {
      SortBucket(b, sort, hiddenlines, p);
      DrawTransparency(b, sort, hiddenlines);
    }

    /** A visit the renderer can make in its present state: the list of the bucket, in the present depth mode. */
    predicate Fits(v: Visit)
      reads this`depthwriteonly
    {
      v.list == ListOf(v.bucket) && v.depthonly == depthwriteonly && (v.VOpaque? <==> !IsRecordBucket(v.bucket))
    }

    /** One draw-loop call of `render`: `renderOpaque` or `renderTransparency` as the visit says. */
    method RenderVisit(v: Visit, hiddenlines: bool, p: Plane, ghost ls0: Lists)
      requires Indexed(ls0) && Unsort(AllLists()) == Unsort(ls0) && Fits(v)
      modifies this`scene, this`hl, this`sel, this`prevplane
      modifies this`material, this`prevmaterial, this`prevpass, this`recheckmaterial, this`trace, this`draws
      modifies this`visits
      ensures Unsort(AllLists()) == Unsort(ls0) && visits == old(visits) + [v]
    {
      UnsortIndexed(ls0, AllLists());
      match v {
        case VOpaque(_, b, pass, _) =>
          RenderOpaque(b, pass);
        case VTransp(_, b, sort, _) =>
          RenderTransparency(b, sort, hiddenlines, p);
      }
    }

    /**
     * The normal scene of `render`: opaque, selected, transparent and on-top
     * entries, with the material rechecked after each of the first four loops.
     */
    method RenderScene(hiddenlines: bool, p: Plane, ghost ls0: Lists)
      requires Indexed(ls0) && Unsort(AllLists()) == Unsort(ls0) && !depthwriteonly
      modifies this`scene, this`hl, this`sel, this`prevplane
      modifies this`material, this`prevmaterial, this`prevpass, this`recheckmaterial, this`trace, this`draws
      modifies this`visits
      ensures Unsort(AllLists()) == Unsort(ls0) && visits == old(visits) + ScenePlan()
    {
      RenderVisit(VOpaque(SceneList, OpaqueVCache, PassNormal, false), hiddenlines, p, ls0);
      recheckmaterial := true;
      RenderVisit(VOpaque(SelectionList, OpaqueSelections, PassHighlight, false), hiddenlines, p, ls0);
      recheckmaterial := true;
      RenderVisit(VTransp(SceneList, TranspVCache, true, false), hiddenlines, p, ls0);
      recheckmaterial := true;
      RenderVisit(VTransp(SelectionList, TranspSelections, true, false), hiddenlines, p, ls0);
      recheckmaterial := true;
      RenderVisit(VOpaque(SceneList, OpaqueOnTop, PassNormal, false), hiddenlines, p, ls0);
      RenderVisit(VTransp(SceneList, TranspOnTop, false, false), hiddenlines, p, ls0);
    }

    // After the normal scene no loop sorts, so the lists stay as they are.

    /** A visit that does not sort: the loop of `renderOpaque`, or `renderTransparency` told not to sort. */
    method DrawVisit(v: Visit, hiddenlines: bool)
      requires Indexed(AllLists()) && Fits(v) && !(v.VTransp? && v.sort)
      modifies this`material, this`prevmaterial, this`prevpass, this`recheckmaterial, this`trace, this`draws
      modifies this`visits
      ensures visits == old(visits) + [v]
    {
      match v {
        case VOpaque(_, b, pass, _) =>
          RenderOpaque(b, pass);
        case VTransp(_, b, sort, _) =>
          DrawTransparency(b, sort, hiddenlines);
      }
    }

    /** `if (c) renderOpaque(...)`. */
    method DrawIf(c: bool, v: Visit, hiddenlines: bool)
      requires Indexed(AllLists()) && (c ==> Fits(v) && !(v.VTransp? && v.sort))
      modifies this`material, this`prevmaterial, this`prevpass, this`recheckmaterial, this`trace, this`draws
      modifies this`visits
      ensures visits == old(visits) + (if c then [v] else [])
    {
      if c {
        DrawVisit(v, hiddenlines);
      }
    }

    /** `if (c) { renderOpaque(...); renderOpaque(...); }`, or an opaque and a transparent loop. */
    method DrawPairIf(c: bool, v: Visit, w: Visit, hiddenlines: bool)
      requires Indexed(AllLists()) && (c ==> Fits(v) && Fits(w) && !(v.VTransp? && v.sort) && !(w.VTransp? && w.sort))
      modifies this`material, this`prevmaterial, this`prevpass, this`recheckmaterial, this`trace, this`draws
      modifies this`visits
      ensures visits == old(visits) + (if c then [v, w] else [])
    {
      if c {
        DrawVisit(v, hiddenlines);
        DrawVisit(w, hiddenlines);
      }
    }

    /** On-top transparent selections, then the highlight when it is drawn whole on top. */
    method EarlyOnTopPart(hiddenlines: bool)
      requires Indexed(AllLists()) && !depthwriteonly
      modifies this`material, this`prevmaterial, this`prevpass, this`recheckmaterial, this`trace, this`draws
      modifies this`visits
      ensures visits == old(visits) + EarlyOnTop(hlwholeontop)
    {
      DrawVisit(VTransp(SelectionList, TranspSelectionsOnTop, false, false), hiddenlines);
      DrawPairIf(hlwholeontop, VOpaque(HighlightList, OpaqueHighlight, PassNormal, false),
                 VTransp(HighlightList, TranspHighlight, false, false), hiddenlines);
    }

    /** The depth-only pass over what can hide on-top lines. */
    method PrepassPart(f: FrameFlags, hiddenlines: bool)
      requires Indexed(AllLists()) && depthwriteonly
      modifies this`material, this`prevmaterial, this`prevpass, this`recheckmaterial, this`trace, this`draws
      modifies this`visits
      ensures visits == old(visits) + DepthPrepass(f)
    {
      ghost var v0 := visits;
      var a := VOpaque(SceneList, TrianglesOnTop, PassNormal, true);
      var b := VOpaque(SelectionList, SelsTriangleOnTop, PassNormal, true);
      var c, d := VOpaque(HighlightList, OpaqueHighlight, PassHighlight, true), VTransp(HighlightList, TranspHighlight, false, true);
      DrawIf(f.hasontop, a, hiddenlines);
      ghost var v1 := visits;
      DrawIf(f.hassel, b, hiddenlines);
      ghost var v2 := visits;
      DrawPairIf(f.hlwholeontop, c, d, hiddenlines);
      AppendThree(v0, v1, v2, visits, if f.hasontop then [a] else [], if f.hassel then [b] else [], if f.hlwholeontop then [c, d] else []);
    }

    /** The first pass over on-top lines and points, in the pass `pass`. */
    method LinePart(f: FrameFlags, pass: nat, hiddenlines: bool)
      requires Indexed(AllLists()) && !depthwriteonly
      modifies this`material, this`prevmaterial, this`prevpass, this`recheckmaterial, this`trace, this`draws
      modifies this`visits
      ensures visits == old(visits) + LinePasses(f, pass)
    {
      DrawVisit(VOpaque(SceneList, LinesOnTop, pass, false), hiddenlines);
      DrawVisit(VOpaque(SelectionList, SelsOnTop, pass, false), hiddenlines);
      DrawVisit(VOpaque(SelectionList, SelsLineOnTop, pass + PassHighlight, false), hiddenlines);
      DrawIf(f.hlwholeontop, VOpaque(HighlightList, OpaqueLinesHighlight, pass, false), hiddenlines);
    }

    /** The solid second pass over the on-top lines and points the prepass did not hide. */
    method SolidPart(f: FrameFlags, hiddenlines: bool)
      requires Indexed(AllLists()) && !depthwriteonly
      modifies this`material, this`prevmaterial, this`prevpass, this`recheckmaterial, this`trace, this`draws
      modifies this`visits
      ensures visits == old(visits) + SolidPasses(f)
    {
      ghost var v0 := visits;
      var a := VOpaque(SceneList, LinesOnTop, PassLineSolid, false);
      var b, c := VOpaque(SelectionList, SelsOnTop, PassLineSolid, false), VOpaque(SelectionList, SelsLineOnTop, PassLineSolid + PassHighlight, false);
      var d := VOpaque(HighlightList, OpaqueLinesHighlight, PassLineSolid + PassHighlight, false);
      DrawIf(f.hasontop, a, hiddenlines);
      ghost var v1 := visits;
      DrawPairIf(f.hassel, b, c, hiddenlines);
      ghost var v2 := visits;
      DrawIf(f.hlwholeontop, d, hiddenlines);
      AppendThree(v0, v1, v2, visits, if f.hasontop then [a] else [], if f.hassel then [b, c] else [], if f.hlwholeontop then [d] else []);
    }

    /** The highlight, when it is not drawn whole on top. */
    method LatePart(hiddenlines: bool)
      requires Indexed(AllLists()) && !depthwriteonly
      modifies this`material, this`prevmaterial, this`prevpass, this`recheckmaterial, this`trace, this`draws
      modifies this`visits
      ensures visits == old(visits) + LateHighlight(hlwholeontop)
    {
      if !hlwholeontop {
        DrawVisit(VOpaque(HighlightList, OpaqueHighlight, PassNormal, false), hiddenlines);
        DrawVisit(VTransp(HighlightList, TranspHighlight, false, false), hiddenlines);
        DrawVisit(VOpaque(HighlightList, OpaqueLinesHighlight, PassHighlight, false), hiddenlines);
      }
    }

    /**
     * The on-top lines and points: with line styling, a depth-only prepass with
     * colour writes off first; then the first line pass with blending on, and
     * with line styling the solid second pass.
     */
    method StyledLines(f: FrameFlags, hiddenlines: bool)
      requires Indexed(AllLists()) && !depthwriteonly && f.hlwholeontop == hlwholeontop
      modifies this`material, this`prevmaterial, this`prevpass, this`recheckmaterial, this`trace, this`draws
      modifies this`visits
      modifies this`depthwriteonly
      ensures !depthwriteonly
      ensures visits == old(visits) + (Prepass(f) + LinePasses(f, LinePass(f)) + SecondPass(f))
    {
      var styled := f.hassel || f.hasontop || hlwholeontop;
      var pass := PassNormal;
      ghost var v0 := visits;
      if styled {
        recheckmaterial := true;
        depthwriteonly := true;
        trace := trace + [ColorMask(false)];
        PrepassPart(f, hiddenlines);
        depthwriteonly := false;
        trace := trace + [ColorMask(true)];
        pass := PassLinePattern;
      }
      ghost var v1 := visits;
      trace := trace + [Enable(Blend), BlendFunc(false)];
      LinePart(f, pass, hiddenlines);
      ghost var v2 := visits;
      if styled {
        SolidPart(f, hiddenlines);
      }
      trace := trace + [Disable(Blend)];
      AppendThree(v0, v1, v2, visits, Prepass(f), LinePasses(f, LinePass(f)), SecondPass(f));
    }

    /**
     * What `render` draws after the normal scene: the on-top transparent
     * selections and a highlight drawn whole on top, the on-top lines and
     * points, a highlight not drawn whole on top, and the selected points on
     * top. Returns the frame's flags, `hassel` and `hasontop` taken where
     * `render` takes them.
     */
    method RenderOnTop(delayed: bool, hiddenlines: bool) returns (f: FrameFlags)
      requires Indexed(AllLists()) && !depthwriteonly
      modifies this`material, this`prevmaterial, this`prevpass, this`recheckmaterial, this`trace, this`draws
      modifies this`visits
      modifies this`depthwriteonly
      ensures !depthwriteonly
      ensures f == FrameFlags(delayed, shadowrendering, shadowmapping, hlwholeontop, HasSel(), HasOnTop())
      ensures visits == old(visits) + OnTopPlan(f)
    {
      ghost var v0 := visits;
      recheckmaterial := true;
      EarlyOnTopPart(hiddenlines);
      ghost var v1 := visits;
      f := FrameFlags(delayed, shadowrendering, shadowmapping, hlwholeontop, HasSel(), HasOnTop());
      StyledLines(f, hiddenlines);
      ghost var v2 := visits;
      LatePart(hiddenlines);
      ghost var v3 := visits;
      DrawVisit(VOpaque(SelectionList, SelsPointOnTop, PassHighlight, false), hiddenlines);
      OnTopPlanParts(f);
      AppendFour(v0, v1, v2, v3, visits, EarlyOnTop(f.hlwholeontop), Prepass(f) + LinePasses(f, LinePass(f)) + SecondPass(f),
                 LateHighlight(f.hlwholeontop), [VOpaque(SelectionList, SelsPointOnTop, PassHighlight, false)]);
    }

    /** `updateSelection` as the start of a frame sees it. */
    method RefreshSelection()
      requires Valid()
      modifies this`scene, this`sel, this`selectionkeys, this`updateselection
      ensures Valid() && !updateselection
      ensures unchanged(this`shadowrendering, this`shadowmapping, this`transpshadowmapping, this`visits)
    {
      UpdateSelection();
    }

    /** The start of `render`: the shadow flags from the shape style. */
    method SetShadowFlags(shadows: bool, shadowmap: bool, transpmap: bool)
      modifies this`shadowrendering, this`shadowmapping, this`transpshadowmapping
      ensures shadowrendering == shadows && shadowmapping == shadowmap && transpshadowmapping == (shadowmap && transpmap)
    {
      shadowrendering := shadows;
      shadowmapping := shadowmap;
      transpshadowmapping := shadowmap && transpmap;
    }

    /**
     * After the selection update: the loop state reset, the OpenGL
     * attributes and the Inventor state saved, colour material switched on.
     */
    method ResetFrame()
      modifies this`depthwriteonly, this`notexture, this`material, this`prevmaterial, this`recheckmaterial, this`trace
      ensures !depthwriteonly && !notexture && material == initmaterial && prevmaterial.None? && !recheckmaterial
      ensures trace == old(trace) + [PushAttrib, SaveState, Enable(ColorMaterial)]
      ensures AllLists() == old(AllLists())
    {
      depthwriteonly := false;
      notexture := false;
      prevmaterial := None;
      recheckmaterial := false;
      material := initmaterial;
      trace := trace + [PushAttrib, SaveState, Enable(ColorMaterial)];
    }

    /**
     * `render` after the normal scene: either the frame ends (shadows deferred
     * to the delayed paths, or a shadow map) or everything on top follows.
     * The saved state is restored on every way out.
     */
    method EndFrame(delayed: bool, hiddenlines: bool) returns (f: FrameFlags)
      requires Indexed(AllLists()) && !depthwriteonly
      modifies this`material, this`prevmaterial, this`prevpass, this`recheckmaterial, this`trace, this`draws
      modifies this`visits, this`depthwriteonly
      ensures f == FrameFlags(delayed, shadowrendering, shadowmapping, hlwholeontop, HasSel(), HasOnTop())
      ensures visits == old(visits) + (if ExitsEarly(f) then [] else OnTopPlan(f))
      ensures !depthwriteonly
      ensures EndsRestored(trace)
      ensures !delayed && shadowrendering ==> QueuesDelayed(trace)
    {
      if !delayed && shadowrendering {
        trace := trace + [QueueDelayedPath, RestoreState, PopAttrib];
        f := FrameFlags(delayed, shadowrendering, shadowmapping, hlwholeontop, HasSel(), HasOnTop());
        return;
      }
      if shadowmapping {
        trace := trace + [RestoreState, PopAttrib];
        f := FrameFlags(delayed, shadowrendering, shadowmapping, hlwholeontop, HasSel(), HasOnTop());
        return;
      }
      f := RenderOnTop(delayed, hiddenlines);
      trace := trace + [RestoreState, PopAttrib];
    }

    /**
     * `render` after its set-up: the normal scene unless delayed paths are
     * being rendered, then the end of the frame.
     */
    method RenderBody(delayed: bool, hiddenlines: bool, p: Plane, ghost ls0: Lists) returns (f: FrameFlags)
      requires Indexed(ls0) && Unsort(AllLists()) == Unsort(ls0) && !depthwriteonly
      modifies this`scene, this`hl, this`sel, this`prevplane, this`depthwriteonly
      modifies this`material, this`prevmaterial, this`prevpass, this`recheckmaterial, this`trace, this`draws
      modifies this`visits
      ensures Unsort(AllLists()) == Unsort(ls0)
      ensures f == FrameFlags(delayed, shadowrendering, shadowmapping, hlwholeontop, HasSel(), HasOnTop())
      ensures visits == old(visits) + Plan(f)
      ensures !depthwriteonly
      ensures EndsRestored(trace)
      ensures !delayed && shadowrendering ==> QueuesDelayed(trace)
    {
      if !delayed {
        RenderScene(hiddenlines, p, ls0);
      }
      UnsortIndexed(ls0, AllLists());
      ghost var v1 := visits;
      f := EndFrame(delayed, hiddenlines);
      PlanInParts(f, old(visits), v1);
    }

    /** `render` once the selection lists are up to date: the loop state reset, then the frame. */
    method ResetAndRender(delayed: bool, hiddenlines: bool, p: Plane) returns (f: FrameFlags)
      requires Indexed(AllLists())
      modifies this`scene, this`hl, this`sel, this`prevplane, this`depthwriteonly, this`notexture
      modifies this`material, this`prevmaterial, this`prevpass, this`recheckmaterial, this`trace, this`draws
      modifies this`visits
      ensures Unsort(AllLists()) == Unsort(old(AllLists()))
      ensures unchanged(this`selectionkeys, this`cleared, this`selections, this`selectionsontop, this`updateselection)
      ensures unchanged(this`shadowrendering, this`shadowmapping, this`transpshadowmapping)
      ensures f == FrameFlags(delayed, shadowrendering, shadowmapping, hlwholeontop, HasSel(), HasOnTop())
      ensures visits == old(visits) + Plan(f)
      ensures !depthwriteonly && !notexture
      ensures EndsRestored(trace)
      ensures !delayed && shadowrendering ==> QueuesDelayed(trace)
    {
      ghost var ls0 := AllLists();
      ResetFrame();
      f := RenderBody(delayed, hiddenlines, p, ls0);
    }

    /**
     * The invariant holds again once the lists differ from those of a state
     * where it held (`ok`) only in the order of their sorted records.
     */
    lemma RestoreValid(ls0: Lists, k: KeptState, ok: bool)
      requires ok == ListsValid(ls0.scene, ls0.hl, ls0.sel, k.selectionkeys, k.cleared, k.selections, k.selectionsontop) && ok
      requires Unsort(AllLists()) == Unsort(ls0) && Kept() == k
      ensures Valid()
    {
      UnsortValid(ls0, AllLists(), k.selectionkeys, k.cleared, k.selections, k.selectionsontop);
    }

    /**
     * `render` after the shadow flags: the selection lists brought up to
     * date, the loop state reset, then the frame.
     */
    method RefreshAndRender(delayed: bool, hiddenlines: bool, p: Plane) returns (f: FrameFlags)
      requires Valid()
      modifies this`scene, this`hl, this`sel, this`selectionkeys, this`updateselection, this`prevplane
      modifies this`depthwriteonly, this`notexture
      modifies this`material, this`prevmaterial, this`prevpass, this`recheckmaterial, this`trace, this`draws
      modifies this`visits
      ensures Valid() && !updateselection
      ensures unchanged(this`shadowrendering, this`shadowmapping, this`transpshadowmapping)
      ensures f == FrameFlags(delayed, shadowrendering, shadowmapping, hlwholeontop, HasSel(), HasOnTop())
      ensures visits == old(visits) + Plan(f)
      ensures !depthwriteonly && !notexture
      ensures EndsRestored(trace)
      ensures !delayed && shadowrendering ==> QueuesDelayed(trace)
    {
      RefreshSelection();
      ghost var ls0, k := AllLists(), Kept();
      ghost var ok := ListsValid(ls0.scene, ls0.hl, ls0.sel, k.selectionkeys, k.cleared, k.selections, k.selectionsontop);
      assert ok;
      f := ResetAndRender(delayed, hiddenlines, p);
      RestoreValid(ls0, k, ok);
    }

    /**
     * `render`: the shadow flags from the shape style, the selection lists
     * brought up to date, the loop state reset, then the frame. Returns the
     * flags the frame's course was decided by.
     */
    method Render(delayed: bool, shadows: bool, shadowmap: bool, transpmap: bool, hiddenlines: bool, p: Plane)
      returns (f: FrameFlags)
      requires Valid()
      modifies this`shadowrendering, this`shadowmapping, this`transpshadowmapping
      modifies this`scene, this`hl, this`sel, this`selectionkeys, this`updateselection, this`prevplane
      modifies this`depthwriteonly, this`notexture
      modifies this`material, this`prevmaterial, this`prevpass, this`recheckmaterial, this`trace, this`draws
      modifies this`visits
      ensures Valid() && !updateselection
      ensures shadowrendering == shadows && shadowmapping == shadowmap && transpshadowmapping == (shadowmap && transpmap)
      ensures f == FrameFlags(delayed, shadowrendering, shadowmapping, hlwholeontop, HasSel(), HasOnTop())
      ensures visits == old(visits) + Plan(f)
      ensures !depthwriteonly && !notexture
      ensures EndsRestored(trace)
      ensures !delayed && shadowrendering ==> QueuesDelayed(trace)
    {
      SetShadowFlags(shadows, shadowmap, transpmap);
      f := RefreshAndRender(delayed, hiddenlines, p);
    }
  }
}

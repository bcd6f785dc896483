/**
 * The per-entry decisions of the renderer's two draw loops (`renderOpaque`
 * and `renderTransparency`) and the order in which `render` visits its
 * index lists.
 *
 * A loop walks an index list. For each entry it decides whether the entry is
 * suppressed by a highlight or selection key, whether the applied material
 * has to be rechecked, whether applying the entry's material is refused, and
 * what geometry is then sent. The state the loops carry from one entry to the
 * next is a `PassState`. The geometry sent is logged separately from the
 * state commands: one record per entry whose primitives reach OpenGL.
 */
module RenderPasses {
  import opened Wrappers
  import opened RenderTypes
  import opened MaterialDiff

  /** What the draw loops carry from one entry to the next. */
  datatype PassState = PassState(
    material: Material,          // the applied material
    prevmaterial: Option<nat>,   // the id of the material last applied; None for a null pointer
    prevpass: nat,
    recheck: bool,
    cmds: seq<GLCmd>,            // the state commands issued so far
    draws: seq<GLCmd>)           // the geometry sent so far

  /** `ys` starts with `xs`. */
  predicate Extends<T(==)>(xs: seq<T>, ys: seq<T>)
  {
    |xs| <= |ys| && ys[..|xs|] == xs
  }

  lemma {:induction false} ExtendsTrans<T>(xs: seq<T>, ys: seq<T>, zs: seq<T>)
    requires Extends(xs, ys) && Extends(ys, zs)
    ensures Extends(xs, zs)
  {
    assert zs[..|xs|] == zs[..|ys|][..|xs|];
  }

  /** Three appends one after another append the three pieces together. */
  lemma {:induction false} AppendThree<T>(v0: seq<T>, v1: seq<T>, v2: seq<T>, v3: seq<T>, a: seq<T>, b: seq<T>, c: seq<T>)
    requires v1 == v0 + a && v2 == v1 + b && v3 == v2 + c
    ensures v3 == v0 + (a + b + c)
  {
    assert v0 + a + b + c == v0 + (a + b + c);
  }

  lemma {:induction false} AppendFour<T>(v0: seq<T>, v1: seq<T>, v2: seq<T>, v3: seq<T>, v4: seq<T>, a: seq<T>, b: seq<T>, c: seq<T>, d: seq<T>)
    requires v1 == v0 + a && v2 == v1 + b && v3 == v2 + c && v4 == v3 + d
    ensures v4 == v0 + (a + b + c + d)
  {
    assert v0 + a + b + c + d == v0 + (a + b + c + d);
  }

  /** The applied material with lighting switched to base colour. */
  function BaseColored(m: Material): Material
  {
    m.(switches := m.switches.(lightmodel := BaseColor))
  }

  /** The entry asks for lighting but its cache has no normals. */
  predicate LacksNormals(m: Material, e: DrawEntry)
  {
    m.switches.lightmodel != BaseColor && !e.ventry.hasNormals
  }

  // ---------------------------------------------------------------------
  // Primitives

  /** `renderLines`: nothing while writing depth only or rendering the shadow map. */
  function LineDraw(list: DrawList, idx: nat, env: Env): seq<GLCmd>
  {
    if env.depthwriteonly || env.shadowmapping then [] else [DrawLines(list, idx)]
  }

  /** `renderPoints`: as lines, and hidden vertices of whole outlined objects are not drawn. */
  function PointDraw(e: DrawEntry, list: DrawList, idx: nat, env: Env): seq<GLCmd>
  {
    if env.depthwriteonly || env.shadowmapping then []
    else if env.params.hiddenLineHideVertex && e.ventry.partidx < 0 && e.material.outline then []
    else [DrawPoints(list, idx)]
  }

  /** The geometry the opaque loop sends: outlined scene faces are hidden in hidden-line mode. */
  function OpaqueDraw(e: DrawEntry, list: DrawList, idx: nat, env: Env): seq<GLCmd>
  {
    match e.material.kind
    case Triangle =>
      if list == SceneList && e.material.outline && env.params.hiddenLineHideFace then []
      else [DrawTriangles(list, idx)]
    case Line => LineDraw(list, idx, env)
    case Point => PointDraw(e, list, idx, env)
  }

  /** The geometry the transparency loop sends; triangles are left out when `notriangle`. */
  function TranspDraw(e: DrawEntry, list: DrawList, idx: nat, env: Env, notriangle: bool): seq<GLCmd>
  {
    match e.material.kind
    case Triangle => if notriangle then [] else [DrawTriangles(list, idx)]
    case Line => LineDraw(list, idx, env)
    case Point => PointDraw(e, list, idx, env)
  }

  // ---------------------------------------------------------------------
  // The opaque loop

  /**
   * An entry the opaque loop skips: its counter is raised and no shadow map is
   * being rendered, unless a concave or on-top section needs it and it has
   * clip planes.
   */
  predicate OpaqueSuppressed(e: DrawEntry, env: Env)
  {
    e.skip != 0 && !env.shadowmapping
    && ((!env.params.sectionConcave && !env.params.noSectionOnTop) || |e.material.clippers| == 0)
  }

  /** The applied material has to be checked again for this entry in this pass. */
  predicate NeedsOpaqueApply(st: PassState, e: DrawEntry, pass: nat)
  {
    st.recheck || st.prevpass != pass || st.prevmaterial != Some(e.material.id)
  }

  /** The entry reaches its draw calls. */
  predicate OpaqueDrawn(st: PassState, e: DrawEntry, pass: nat, env: Env)
  {
    !OpaqueSuppressed(e, env) && (NeedsOpaqueApply(st, e, pass) ==> !Refused(e.material, env))
  }

  /** The draw step: lighting is dropped for good when the cache has no normals. */
  function DrawOpaque(st: PassState, e: DrawEntry, list: DrawList, idx: nat, env: Env): PassState
  {
    var geometry := st.draws + OpaqueDraw(e, list, idx, env);
    if LacksNormals(st.material, e) then
      st.(material := BaseColored(st.material), cmds := st.cmds + [Disable(Lighting)], draws := geometry)
    else st.(draws := geometry)
  }

  /** One iteration of the loop of `renderOpaque` over the entry `e` at position `idx`. */
  function OpaqueEntry(st: PassState, e: DrawEntry, list: DrawList, idx: nat, pass: nat, env: Env): (r: PassState)
    ensures Extends(st.cmds, r.cmds)
    ensures r.draws == st.draws + (if OpaqueDrawn(st, e, pass, env) then OpaqueDraw(e, list, idx, env) else [])
    ensures !OpaqueDrawn(st, e, pass, env) ==> r == st
    ensures OpaqueDrawn(st, e, pass, env) && NeedsOpaqueApply(st, e, pass) ==>
      r.prevmaterial == Some(e.material.id) && r.prevpass == pass && !r.recheck
    ensures !NeedsOpaqueApply(st, e, pass) ==>
      r.prevmaterial == st.prevmaterial && r.prevpass == st.prevpass && r.recheck == st.recheck
  {
    if OpaqueSuppressed(e, env) then st
    else if NeedsOpaqueApply(st, e, pass) then
      AfterOpaqueApply(st, e, Apply(st.material, e.material, st.prevmaterial.None?, false, pass, env), list, idx, pass, env)
    else DrawOpaque(st, e, list, idx, env)
  }

  /** The entry is skipped when applying its material is refused, drawn otherwise. */
  function AfterOpaqueApply(st: PassState, e: DrawEntry, a: Applied, list: DrawList, idx: nat, pass: nat, env: Env): PassState
  {
    if !a.ok then st
    else DrawOpaque(PassState(a.state, Some(e.material.id), pass, false, st.cmds + a.cmds, st.draws), e, list, idx, env)
  }

  /** Every listed position names an entry. */
  predicate InRange(es: seq<DrawEntry>, ix: seq<nat>)
  {
    forall j :: 0 <= j < |ix| ==> ix[j] < |es|
  }

  /** The opaque loop over the positions `ix` of `es`. */
  function OpaqueRun(st: PassState, es: seq<DrawEntry>, ix: seq<nat>, list: DrawList, pass: nat, env: Env): (r: PassState)
    requires InRange(es, ix)
    ensures Extends(st.cmds, r.cmds) && Extends(st.draws, r.draws)
  {
    if |ix| == 0 then st
    else
      var before := OpaqueRun(st, es, ix[..|ix| - 1], list, pass, env);
      var r := OpaqueEntry(before, es[ix[|ix| - 1]], list, ix[|ix| - 1], pass, env);
      ExtendsTrans(st.cmds, before.cmds, r.cmds);
      ExtendsTrans(st.draws, before.draws, r.draws);
      r
  }

  /** The geometry of the entries the opaque loop does not skip, in list order. */
  function OpaqueGeometry(es: seq<DrawEntry>, ix: seq<nat>, list: DrawList, env: Env): seq<GLCmd>
    requires InRange(es, ix)
  {
    if |ix| == 0 then []
    else
      var e := es[ix[|ix| - 1]];
      OpaqueGeometry(es, ix[..|ix| - 1], list, env)
      + (if OpaqueSuppressed(e, env) then [] else OpaqueDraw(e, list, ix[|ix| - 1], env))
  }

  /**
   * Outside shadow mapping no material is refused, so the opaque loop sends
   * the geometry of every entry it does not skip, in list order, whatever
   * material was applied before.
   */
  lemma {:induction false} OpaqueRunDraws(st: PassState, es: seq<DrawEntry>, ix: seq<nat>, list: DrawList, pass: nat, env: Env)
    requires InRange(es, ix) && !env.shadowmapping
    ensures OpaqueRun(st, es, ix, list, pass, env).draws == st.draws + OpaqueGeometry(es, ix, list, env)
  {
    if |ix| > 0 {
      var init := ix[..|ix| - 1];
      assert InRange(es, init);
      OpaqueRunDraws(st, es, init, list, pass, env);
    }
  }

  /** The applied material's record of capability `c` agrees with `on` after the commands. */
  predicate InSync(on: bool, c: Cap, st: PassState)
  {
    CapAfter(on, c, st.cmds) == CapOf(st.material, c)
  }

  /** Dropping lighting by hand keeps the record in step with OpenGL. */
  lemma {:induction false} BaseColoredInSync(on: bool, c: Cap, st: PassState)
    requires MaterialCap(c) && InSync(on, c, st) && st.material.switches.lightmodel != BaseColor
    ensures CapAfter(on, c, st.cmds + [Disable(Lighting)]) == CapOf(BaseColored(st.material), c)
  {
    CapAfterAppend(on, c, st.cmds, [Disable(Lighting)]);
    CapAfterSingle(CapAfter(on, c, st.cmds), c, Disable(Lighting));
  }

  /** Commands that keep a record in step, issued after commands that did, keep it in step. */
  lemma {:induction false} AppendInSync(on: bool, c: Cap, cmds: seq<GLCmd>, m: Material, more: seq<GLCmd>, m': Material)
    requires CapAfter(on, c, cmds) == CapOf(m, c) && CapAfter(CapOf(m, c), c, more) == CapOf(m', c)
    ensures CapAfter(on, c, cmds + more) == CapOf(m', c)
  {
    CapAfterAppend(on, c, cmds, more);
  }

  lemma {:induction false} DrawOpaqueInSync(on: bool, c: Cap, st: PassState, e: DrawEntry, list: DrawList, idx: nat, env: Env)
    requires MaterialCap(c) && InSync(on, c, st)
    ensures InSync(on, c, DrawOpaque(st, e, list, idx, env))
  {
    if LacksNormals(st.material, e) {
      BaseColoredInSync(on, c, st);
    }
  }

  lemma {:induction false} AfterOpaqueApplyInSync(on: bool, c: Cap, st: PassState, e: DrawEntry, a: Applied, list: DrawList, idx: nat, pass: nat, env: Env)
    requires MaterialCap(c) && InSync(on, c, st)
    requires CapAfter(CapOf(st.material, c), c, a.cmds) == CapOf(a.state, c)
    ensures InSync(on, c, AfterOpaqueApply(st, e, a, list, idx, pass, env))
  {
    if a.ok {
      AppendInSync(on, c, st.cmds, st.material, a.cmds, a.state);
      DrawOpaqueInSync(on, c, PassState(a.state, Some(e.material.id), pass, false, st.cmds + a.cmds, st.draws), e, list, idx, env);
    }
  }

  /** Applying a material and drawing an entry keep the applied material in step with OpenGL. */
  lemma {:induction false} OpaqueEntryInSync(on: bool, c: Cap, st: PassState, e: DrawEntry, list: DrawList, idx: nat, pass: nat, env: Env)
    requires MaterialCap(c) && InSync(on, c, st)
    ensures InSync(on, c, OpaqueEntry(st, e, list, idx, pass, env))
  {
    if OpaqueSuppressed(e, env) {
    } else if NeedsOpaqueApply(st, e, pass) {
      ApplyKeepsCapsInSync(st.material, e.material, st.prevmaterial.None?, false, pass, env, c);
      AfterOpaqueApplyInSync(on, c, st, e, Apply(st.material, e.material, st.prevmaterial.None?, false, pass, env), list, idx, pass, env);
    } else {
      DrawOpaqueInSync(on, c, st, e, list, idx, env);
    }
  }

  lemma {:induction false} OpaqueRunInSync(on: bool, c: Cap, st: PassState, es: seq<DrawEntry>, ix: seq<nat>, list: DrawList, pass: nat, env: Env)
    requires InRange(es, ix) && MaterialCap(c) && InSync(on, c, st)
    ensures InSync(on, c, OpaqueRun(st, es, ix, list, pass, env))
  {
    if |ix| > 0 {
      var init := ix[..|ix| - 1];
      assert InRange(es, init);
      OpaqueRunInSync(on, c, st, es, init, list, pass, env);
      OpaqueEntryInSync(on, c, OpaqueRun(st, es, init, list, pass, env), es[ix[|ix| - 1]], list, ix[|ix| - 1], pass, env);
    }
  }

  // ---------------------------------------------------------------------
  // The transparency loop

  /** The transparency loop skips every raised entry outside shadow mapping. */
  predicate TranspSuppressed(e: DrawEntry, env: Env)
  {
    e.skip != 0 && !env.shadowmapping
  }

  /** The transparency loop rechecks on a new material only; it ignores the pass. */
  predicate NeedsTranspApply(st: PassState, e: DrawEntry)
  {
    st.recheck || st.prevmaterial != Some(e.material.id)
  }

  predicate TranspDrawn(st: PassState, e: DrawEntry, env: Env)
  {
    !TranspSuppressed(e, env) && (NeedsTranspApply(st, e) ==> !Refused(e.material, env))
  }

  /** The draw step: lighting is switched off around an entry without normals, and back on. */
  function DrawTransp(st: PassState, e: DrawEntry, list: DrawList, idx: nat, env: Env, notriangle: bool): PassState
  {
    var geometry := st.draws + TranspDraw(e, list, idx, env, notriangle);
    if LacksNormals(st.material, e) then
      st.(cmds := st.cmds + [Disable(Lighting), Enable(Lighting)], draws := geometry)
    else st.(draws := geometry)
  }

  /** One iteration of the loop of `renderTransparency`; the material is applied as transparent, pass 0. */
  function TranspEntry(st: PassState, e: DrawEntry, list: DrawList, idx: nat, env: Env, notriangle: bool): (r: PassState)
    ensures Extends(st.cmds, r.cmds)
    ensures r.draws == st.draws + (if TranspDrawn(st, e, env) then TranspDraw(e, list, idx, env, notriangle) else [])
    ensures !TranspDrawn(st, e, env) ==> r == st
    ensures r.prevpass == st.prevpass
    ensures TranspDrawn(st, e, env) && NeedsTranspApply(st, e) ==>
      r.prevmaterial == Some(e.material.id) && !r.recheck
  {
    if TranspSuppressed(e, env) then st
    else if NeedsTranspApply(st, e) then
      AfterTranspApply(st, e, Apply(st.material, e.material, st.prevmaterial.None?, true, PassNormal, env), list, idx, env, notriangle)
    else DrawTransp(st, e, list, idx, env, notriangle)
  }

  function AfterTranspApply(st: PassState, e: DrawEntry, a: Applied, list: DrawList, idx: nat, env: Env, notriangle: bool): PassState
  {
    if !a.ok then st
    else DrawTransp(st.(material := a.state, prevmaterial := Some(e.material.id), recheck := false, cmds := st.cmds + a.cmds),
                    e, list, idx, env, notriangle)
  }

  predicate RecordsInRange(es: seq<DrawEntry>, rs: seq<DrawEntryIndex>)
  {
    forall j :: 0 <= j < |rs| ==> rs[j].idx < |es|
  }

  function TranspRun(st: PassState, es: seq<DrawEntry>, rs: seq<DrawEntryIndex>, list: DrawList, env: Env, notriangle: bool): (r: PassState)
    requires RecordsInRange(es, rs)
    ensures Extends(st.cmds, r.cmds) && Extends(st.draws, r.draws)
  {
    if |rs| == 0 then st
    else
      var before := TranspRun(st, es, rs[..|rs| - 1], list, env, notriangle);
      var r := TranspEntry(before, es[rs[|rs| - 1].idx], list, rs[|rs| - 1].idx, env, notriangle);
      ExtendsTrans(st.cmds, before.cmds, r.cmds);
      ExtendsTrans(st.draws, before.draws, r.draws);
      r
  }

  function TranspGeometry(es: seq<DrawEntry>, rs: seq<DrawEntryIndex>, list: DrawList, env: Env, notriangle: bool): seq<GLCmd>
    requires RecordsInRange(es, rs)
  {
    if |rs| == 0 then []
    else
      var e := es[rs[|rs| - 1].idx];
      TranspGeometry(es, rs[..|rs| - 1], list, env, notriangle)
      + (if TranspSuppressed(e, env) then [] else TranspDraw(e, list, rs[|rs| - 1].idx, env, notriangle))
  }

  /** Outside shadow mapping the transparency loop sends every unskipped entry, in record order. */
  lemma {:induction false} TranspRunDraws(st: PassState, es: seq<DrawEntry>, rs: seq<DrawEntryIndex>, list: DrawList, env: Env, notriangle: bool)
    requires RecordsInRange(es, rs) && !env.shadowmapping
    ensures TranspRun(st, es, rs, list, env, notriangle).draws == st.draws + TranspGeometry(es, rs, list, env, notriangle)
  {
    if |rs| > 0 {
      var init := rs[..|rs| - 1];
      assert RecordsInRange(es, init);
      TranspRunDraws(st, es, init, list, env, notriangle);
    }
  }

  lemma {:induction false} DrawTranspInSync(on: bool, c: Cap, st: PassState, e: DrawEntry, list: DrawList, idx: nat, env: Env, notriangle: bool)
    requires MaterialCap(c) && InSync(on, c, st)
    ensures InSync(on, c, DrawTransp(st, e, list, idx, env, notriangle))
  {
    if LacksNormals(st.material, e) {
      var x := CapAfter(on, c, st.cmds);
      assert [Disable(Lighting), Enable(Lighting)] == [Disable(Lighting)] + [Enable(Lighting)];
      CapAfterAppend(on, c, st.cmds, [Disable(Lighting), Enable(Lighting)]);
      CapAfterAppend(x, c, [Disable(Lighting)], [Enable(Lighting)]);
      CapAfterSingle(x, c, Disable(Lighting));
      CapAfterSingle(StepCap(x, c, Disable(Lighting)), c, Enable(Lighting));
    }
  }

  lemma {:induction false} AfterTranspApplyInSync(on: bool, c: Cap, st: PassState, e: DrawEntry, a: Applied, list: DrawList, idx: nat, env: Env, notriangle: bool)
    requires MaterialCap(c) && InSync(on, c, st)
    requires CapAfter(CapOf(st.material, c), c, a.cmds) == CapOf(a.state, c)
    ensures InSync(on, c, AfterTranspApply(st, e, a, list, idx, env, notriangle))
  {
    if a.ok {
      AppendInSync(on, c, st.cmds, st.material, a.cmds, a.state);
      DrawTranspInSync(on, c, st.(material := a.state, prevmaterial := Some(e.material.id), recheck := false, cmds := st.cmds + a.cmds),
                       e, list, idx, env, notriangle);
    }
  }

  lemma {:induction false} TranspEntryInSync(on: bool, c: Cap, st: PassState, e: DrawEntry, list: DrawList, idx: nat, env: Env, notriangle: bool)
    requires MaterialCap(c) && InSync(on, c, st)
    ensures InSync(on, c, TranspEntry(st, e, list, idx, env, notriangle))
  {
    if TranspSuppressed(e, env) {
    } else if NeedsTranspApply(st, e) {
      ApplyKeepsCapsInSync(st.material, e.material, st.prevmaterial.None?, true, PassNormal, env, c);
      AfterTranspApplyInSync(on, c, st, e, Apply(st.material, e.material, st.prevmaterial.None?, true, PassNormal, env), list, idx, env, notriangle);
    } else {
      DrawTranspInSync(on, c, st, e, list, idx, env, notriangle);
    }
  }

  lemma {:induction false} TranspRunInSync(on: bool, c: Cap, st: PassState, es: seq<DrawEntry>, rs: seq<DrawEntryIndex>, list: DrawList, env: Env, notriangle: bool)
    requires RecordsInRange(es, rs) && MaterialCap(c) && InSync(on, c, st)
    ensures InSync(on, c, TranspRun(st, es, rs, list, env, notriangle))
  {
    if |rs| > 0 {
      var init := rs[..|rs| - 1];
      assert RecordsInRange(es, init);
      TranspRunInSync(on, c, st, es, init, list, env, notriangle);
      TranspEntryInSync(on, c, TranspRun(st, es, init, list, env, notriangle), es[rs[|rs| - 1].idx], list, rs[|rs| - 1].idx, env, notriangle);
    }
  }

  /** A skipped entry, or one whose material is refused, leaves the state alone. */
  lemma {:induction false} OpaqueEntrySkips(st: PassState, e: DrawEntry, list: DrawList, idx: nat, pass: nat, env: Env)
    requires OpaqueSuppressed(e, env) || (NeedsOpaqueApply(st, e, pass) && Refused(e.material, env))
    ensures OpaqueEntry(st, e, list, idx, pass, env) == st
  {
  }

  /** `applyMaterial` on the loop state: the new applied material and the commands appended. */
  function Applying(st: PassState, next: Material, transp: bool, pass: nat, env: Env): PassState
  {
    var a := Apply(st.material, next, st.prevmaterial.None?, transp, pass, env);
    st.(material := a.state, cmds := st.cmds + a.cmds)
  }

  /** The state the opaque loop draws from once `applyMaterial` accepted the entry's material. */
  function OpaqueApplied(st: PassState, e: DrawEntry, pass: nat, env: Env): PassState
  {
    Applying(st, e.material, false, pass, env).(prevmaterial := Some(e.material.id), prevpass := pass, recheck := false)
  }

  /** An entry whose material is applied is drawn from the state `applyMaterial` leaves. */
  lemma {:induction false} OpaqueEntryApplies(st: PassState, e: DrawEntry, list: DrawList, idx: nat, pass: nat, env: Env)
    requires !OpaqueSuppressed(e, env) && NeedsOpaqueApply(st, e, pass) && !Refused(e.material, env)
    ensures OpaqueEntry(st, e, list, idx, pass, env) == DrawOpaque(OpaqueApplied(st, e, pass, env), e, list, idx, env)
  {
  }

  lemma {:induction false} OpaqueEntryKeeps(st: PassState, e: DrawEntry, list: DrawList, idx: nat, pass: nat, env: Env)
    requires !OpaqueSuppressed(e, env) && !NeedsOpaqueApply(st, e, pass)
    ensures OpaqueEntry(st, e, list, idx, pass, env) == DrawOpaque(st, e, list, idx, env)
  {
  }

  lemma {:induction false} TranspEntrySkips(st: PassState, e: DrawEntry, list: DrawList, idx: nat, env: Env, notriangle: bool)
    requires TranspSuppressed(e, env) || (NeedsTranspApply(st, e) && Refused(e.material, env))
    ensures TranspEntry(st, e, list, idx, env, notriangle) == st
  {
  }

  /** The state the transparency loop draws from once `applyMaterial` accepted the entry's material. */
  function TranspApplied(st: PassState, e: DrawEntry, env: Env): PassState
  {
    Applying(st, e.material, true, PassNormal, env).(prevmaterial := Some(e.material.id), recheck := false)
  }

  lemma {:induction false} TranspEntryApplies(st: PassState, e: DrawEntry, list: DrawList, idx: nat, env: Env, notriangle: bool)
    requires !TranspSuppressed(e, env) && NeedsTranspApply(st, e) && !Refused(e.material, env)
    ensures TranspEntry(st, e, list, idx, env, notriangle) == DrawTransp(TranspApplied(st, e, env), e, list, idx, env, notriangle)
  {
  }

  lemma {:induction false} TranspEntryKeeps(st: PassState, e: DrawEntry, list: DrawList, idx: nat, env: Env, notriangle: bool)
    requires !TranspSuppressed(e, env) && !NeedsTranspApply(st, e)
    ensures TranspEntry(st, e, list, idx, env, notriangle) == DrawTransp(st, e, list, idx, env, notriangle)
  {
  }

  lemma {:induction false} OpaqueRunGrow(st: PassState, es: seq<DrawEntry>, ix: seq<nat>, i: nat, list: DrawList, pass: nat, env: Env)
    requires InRange(es, ix) && i < |ix|
    ensures InRange(es, ix[..i]) && InRange(es, ix[..i + 1])
    ensures OpaqueRun(st, es, ix[..i + 1], list, pass, env)
         == OpaqueEntry(OpaqueRun(st, es, ix[..i], list, pass, env), es[ix[i]], list, ix[i], pass, env)
  {
    assert ix[..i + 1][..i] == ix[..i];
  }

  lemma {:induction false} TranspRunGrow(st: PassState, es: seq<DrawEntry>, rs: seq<DrawEntryIndex>, i: nat, list: DrawList, env: Env, notriangle: bool)
    requires RecordsInRange(es, rs) && i < |rs|
    ensures RecordsInRange(es, rs[..i]) && RecordsInRange(es, rs[..i + 1])
    ensures TranspRun(st, es, rs[..i + 1], list, env, notriangle)
         == TranspEntry(TranspRun(st, es, rs[..i], list, env, notriangle), es[rs[i].idx], list, rs[i].idx, env, notriangle)
  {
    assert rs[..i + 1][..i] == rs[..i];
  }

  /** In hidden-line mode with hidden faces the transparency loop leaves out the scene's triangles. */
  predicate HidesFaces(list: DrawList, hiddenlines: bool, p: ViewParams)
  {
    list == SceneList && hiddenlines && p.hiddenLineHideFace
  }

  /** The transparency loop with blending switched on (source alpha) before it and off after it. */
  function BlendedRun(st: PassState, es: seq<DrawEntry>, rs: seq<DrawEntryIndex>, list: DrawList, env: Env, notriangle: bool): (r: PassState)
    requires RecordsInRange(es, rs)
    ensures Extends(st.cmds + [Enable(Blend), BlendFunc(false)], r.cmds)
    ensures r.cmds[|r.cmds| - 1] == Disable(Blend)
  {
    var run := TranspRun(st.(cmds := st.cmds + [Enable(Blend), BlendFunc(false)]), es, rs, list, env, notriangle);
    assert (run.cmds + [Disable(Blend)])[..|run.cmds|] == run.cmds;
    run.(cmds := run.cmds + [Disable(Blend)])
  }

  lemma {:induction false} BlendedRunIs(st: PassState, es: seq<DrawEntry>, rs: seq<DrawEntryIndex>, list: DrawList, env: Env, notriangle: bool, run: PassState)
    requires RecordsInRange(es, rs)
    requires run == TranspRun(st.(cmds := st.cmds + [Enable(Blend), BlendFunc(false)]), es, rs, list, env, notriangle)
    ensures BlendedRun(st, es, rs, list, env, notriangle) == run.(cmds := run.cmds + [Disable(Blend)])
  {
  }

  // ---------------------------------------------------------------------
  // The order of a frame

  /** One call of a draw loop: the list, the index list, the pass or sorting flag, depth-only mode. */
  datatype Visit =
    | VOpaque(list: DrawList, bucket: Bucket, pass: nat, depthonly: bool)
    | VTransp(list: DrawList, bucket: Bucket, sort: bool, depthonly: bool)

  /** What `render` decides the frame's course by. */
  datatype FrameFlags = FrameFlags(
    delayed: bool,          // the action is rendering delayed paths
    shadowrendering: bool,
    shadowmapping: bool,
    hlwholeontop: bool,
    hassel: bool,           // on-top selections or on-top line selections to draw
    hasontop: bool)         // on-top triangles and on-top lines to draw

  /** The frame ends right after the normal scene: shadows are deferred, or this is the shadow map. */
  predicate ExitsEarly(f: FrameFlags)
  {
    (!f.delayed && f.shadowrendering) || f.shadowmapping
  }

  /** On-top lines need a depth prepass and two line passes. */
  predicate LineStyled(f: FrameFlags)
  {
    f.hassel || f.hasontop || f.hlwholeontop
  }

  /** The normal scene, drawn unless delayed paths are being rendered. */
  function ScenePlan(): seq<Visit>
  {
    [VOpaque(SceneList, OpaqueVCache, PassNormal, false),
     VOpaque(SelectionList, OpaqueSelections, PassHighlight, false),
     VTransp(SceneList, TranspVCache, true, false),
     VTransp(SelectionList, TranspSelections, true, false),
     VOpaque(SceneList, OpaqueOnTop, PassNormal, false),
     VTransp(SceneList, TranspOnTop, false, false)]
  }

  /** Depth writes of whatever hides on-top lines: on-top triangles, selections, a whole highlight. */
  function DepthPrepass(f: FrameFlags): seq<Visit>
  {
    (if f.hasontop then [VOpaque(SceneList, TrianglesOnTop, PassNormal, true)] else [])
    + (if f.hassel then [VOpaque(SelectionList, SelsTriangleOnTop, PassNormal, true)] else [])
    + (if f.hlwholeontop then [VOpaque(HighlightList, OpaqueHighlight, PassHighlight, true),
                               VTransp(HighlightList, TranspHighlight, false, true)] else [])
  }

  /** The first pass over on-top lines and points (patterned when line styling is on). */
  function LinePasses(f: FrameFlags, pass: nat): seq<Visit>
  {
    [VOpaque(SceneList, LinesOnTop, pass, false),
     VOpaque(SelectionList, SelsOnTop, pass, false),
     VOpaque(SelectionList, SelsLineOnTop, pass + PassHighlight, false)]
    + (if f.hlwholeontop then [VOpaque(HighlightList, OpaqueLinesHighlight, pass, false)] else [])
  }

  /** The second, solid pass for the non-hidden parts of on-top lines. */
  function SolidPasses(f: FrameFlags): seq<Visit>
  {
    (if f.hasontop then [VOpaque(SceneList, LinesOnTop, PassLineSolid, false)] else [])
    + (if f.hassel then [VOpaque(SelectionList, SelsOnTop, PassLineSolid, false),
                         VOpaque(SelectionList, SelsLineOnTop, PassLineSolid + PassHighlight, false)] else [])
    + (if f.hlwholeontop then [VOpaque(HighlightList, OpaqueLinesHighlight, PassLineSolid + PassHighlight, false)] else [])
  }

  /** A highlight that is not drawn whole on top comes after everything else but selected points. */
  function LateHighlight(wholeontop: bool): seq<Visit>
  {
    if wholeontop then []
    else [VOpaque(HighlightList, OpaqueHighlight, PassNormal, false),
          VTransp(HighlightList, TranspHighlight, false, false),
          VOpaque(HighlightList, OpaqueLinesHighlight, PassHighlight, false)]
  }

  /** On-top transparent selections, then a highlight drawn whole on top. */
  function EarlyOnTop(wholeontop: bool): seq<Visit>
  {
    [VTransp(SelectionList, TranspSelectionsOnTop, false, false)]
    + (if wholeontop then [VOpaque(HighlightList, OpaqueHighlight, PassNormal, false),
                               VTransp(HighlightList, TranspHighlight, false, false)] else [])
  }

  function Prepass(f: FrameFlags): seq<Visit>
  {
    if LineStyled(f) then DepthPrepass(f) else []
  }

  /** The pass of the first line pass. */
  function LinePass(f: FrameFlags): nat
  {
    if LineStyled(f) then PassLinePattern else PassNormal
  }

  function SecondPass(f: FrameFlags): seq<Visit>
  {
    if LineStyled(f) then SolidPasses(f) else []
  }

  /** Everything drawn after the normal scene, ending with selected points. */
  function OnTopPlan(f: FrameFlags): seq<Visit>
  {
    EarlyOnTop(f.hlwholeontop) + Prepass(f) + LinePasses(f, LinePass(f)) + SecondPass(f) + LateHighlight(f.hlwholeontop)
    + [VOpaque(SelectionList, SelsPointOnTop, PassHighlight, false)]
  }

  /** The after-scene plan in the four parts `render` draws it in: early, styled lines, late highlight, points. */
  lemma {:induction false} OnTopPlanParts(f: FrameFlags)
    ensures OnTopPlan(f) == EarlyOnTop(f.hlwholeontop) + (Prepass(f) + LinePasses(f, LinePass(f)) + SecondPass(f)) + LateHighlight(f.hlwholeontop)
                            + [VOpaque(SelectionList, SelsPointOnTop, PassHighlight, false)]
  {
    var a, b, c, d, e := EarlyOnTop(f.hlwholeontop), Prepass(f), LinePasses(f, LinePass(f)), SecondPass(f), LateHighlight(f.hlwholeontop);
    assert a + b + c + d == a + (b + c + d);
  }

  /** The draw-loop calls of one `render`, in order. */
  function Plan(f: FrameFlags): seq<Visit>
  {
    (if f.delayed then [] else ScenePlan()) + (if ExitsEarly(f) then [] else OnTopPlan(f))
  }

  /** Visits recorded as the scene part, then the rest, are the plan's. */
  lemma {:induction false} PlanInParts(f: FrameFlags, vs: seq<Visit>, ws: seq<Visit>)
    requires ws == vs + (if f.delayed then [] else ScenePlan())
    ensures ws + (if ExitsEarly(f) then [] else OnTopPlan(f)) == vs + Plan(f)
  {
  }

  // ---------------------------------------------------------------------
  // Properties of the order

  /** The passes in which a frame visits one index list, in order. */
  function PassesOf(vs: seq<Visit>, list: DrawList, b: Bucket): seq<nat>
  {
    if |vs| == 0 then []
    else PassesOf(vs[..|vs| - 1], list, b)
         + (if vs[|vs| - 1].VOpaque? && vs[|vs| - 1].list == list && vs[|vs| - 1].bucket == b
            then [vs[|vs| - 1].pass] else [])
  }

  lemma {:induction false} PassesOfAppend(xs: seq<Visit>, ys: seq<Visit>, list: DrawList, b: Bucket)
    ensures PassesOf(xs + ys, list, b) == PassesOf(xs, list, b) + PassesOf(ys, list, b)
    decreases |ys|
  {
    if |ys| == 0 {
      assert xs + ys == xs;
    } else {
      var init := ys[..|ys| - 1];
      assert (xs + ys)[..|xs + ys| - 1] == xs + init;
      PassesOfAppend(xs, init, list, b);
    }
  }

  /** A list of visits none of which is an opaque visit of `(list, b)`. */
  predicate Avoids(vs: seq<Visit>, list: DrawList, b: Bucket)
  {
    forall i :: 0 <= i < |vs| ==> !(vs[i].VOpaque? && vs[i].list == list && vs[i].bucket == b)
  }

  lemma {:induction false} PassesOfAvoids(vs: seq<Visit>, list: DrawList, b: Bucket)
    requires Avoids(vs, list, b)
    ensures PassesOf(vs, list, b) == []
  {
    if |vs| > 0 {
      assert Avoids(vs[..|vs| - 1], list, b);
      PassesOfAvoids(vs[..|vs| - 1], list, b);
    }
  }

  lemma {:induction false} PassesOfSingle(v: Visit, list: DrawList, b: Bucket)
    ensures PassesOf([v], list, b) == if v.VOpaque? && v.list == list && v.bucket == b then [v.pass] else []
  {
    assert [v][..0] == [];
  }

  lemma {:induction false} LinePassesOfLines(f: FrameFlags, pass: nat)
    ensures PassesOf(LinePasses(f, pass), SceneList, LinesOnTop) == [pass]
  {
    var head := [VOpaque(SceneList, LinesOnTop, pass, false)];
    var rest := [VOpaque(SelectionList, SelsOnTop, pass, false),
                 VOpaque(SelectionList, SelsLineOnTop, pass + PassHighlight, false)]
                + (if f.hlwholeontop then [VOpaque(HighlightList, OpaqueLinesHighlight, pass, false)] else []);
    assert LinePasses(f, pass) == head + rest;
    PassesOfAppend(head, rest, SceneList, LinesOnTop);
    PassesOfSingle(head[0], SceneList, LinesOnTop);
    PassesOfAvoids(rest, SceneList, LinesOnTop);
  }

  lemma {:induction false} SolidPassesOfLines(f: FrameFlags)
    ensures PassesOf(SolidPasses(f), SceneList, LinesOnTop) == if f.hasontop then [PassLineSolid] else []
  {
    var head := if f.hasontop then [VOpaque(SceneList, LinesOnTop, PassLineSolid, false)] else [];
    var rest := (if f.hassel then [VOpaque(SelectionList, SelsOnTop, PassLineSolid, false),
                                  VOpaque(SelectionList, SelsLineOnTop, PassLineSolid + PassHighlight, false)] else [])
                + (if f.hlwholeontop then [VOpaque(HighlightList, OpaqueLinesHighlight, PassLineSolid + PassHighlight, false)] else []);
    assert SolidPasses(f) == head + rest;
    PassesOfAppend(head, rest, SceneList, LinesOnTop);
    if f.hasontop {
      PassesOfSingle(head[0], SceneList, LinesOnTop);
    }
    PassesOfAvoids(rest, SceneList, LinesOnTop);
  }

  /**
   * On-top scene lines: a frame that draws them on top draws them once with
   * the normal pass, or, with line styling on, first with the line pattern
   * and then solid when there are also on-top triangles to hide them.
   */
  lemma {:induction false} OnTopLinePasses(f: FrameFlags)
    requires !ExitsEarly(f)
    ensures PassesOf(Plan(f), SceneList, LinesOnTop)
         == if !LineStyled(f) then [PassNormal]
            else [PassLinePattern] + (if f.hasontop then [PassLineSolid] else [])
  {
    var s: seq<Visit> := if f.delayed then [] else ScenePlan();
    assert Plan(f) == s + OnTopPlan(f);
    PassesOfAppend(s, OnTopPlan(f), SceneList, LinesOnTop);
    OthersAvoidLines(f);
    OnTopPlanLines(f);
  }

  /** Of the plan after the scene, only the line passes and the second pass draw on-top scene lines. */
  lemma {:induction false} OnTopPlanLines(f: FrameFlags)
    ensures PassesOf(OnTopPlan(f), SceneList, LinesOnTop)
         == if !LineStyled(f) then [PassNormal]
            else [PassLinePattern] + (if f.hasontop then [PassLineSolid] else [])
  {
    var a, b, c, d, e := EarlyOnTop(f.hlwholeontop), Prepass(f), LinePasses(f, LinePass(f)), SecondPass(f), LateHighlight(f.hlwholeontop);
    var g := [VOpaque(SelectionList, SelsPointOnTop, PassHighlight, false)];
    var L, B := SceneList, LinesOnTop;
    assert OnTopPlan(f) == a + b + c + d + e + g;
    PassesOfCompose(a, b, c, d, e, g, L, B);
    OthersAvoidLines(f);
    var pc, pd := PassesOf(c, L, B), PassesOf(d, L, B);
    assert PassesOf(OnTopPlan(f), L, B) == pc + pd by {
      JoinAroundEmpty(PassesOf(a, L, B), PassesOf(b, L, B), pc, pd, PassesOf(e, L, B), PassesOf(g, L, B));
    }
    LinePassesOfLines(f, LinePass(f));
    if LineStyled(f) {
      SolidPassesOfLines(f);
      assert pc == [PassLinePattern];
    } else {
      assert d == [];
      assert pd == [];
      assert pc == [PassNormal];
    }
  }

  lemma {:induction false} JoinAroundEmpty(a: seq<nat>, b: seq<nat>, c: seq<nat>, d: seq<nat>, e: seq<nat>, g: seq<nat>)
    requires a == [] && b == [] && e == [] && g == []
    ensures a + b + c + d + e + g == c + d
  {
    assert a + b == [];
    assert [] + c == c;
    assert c + d + [] + [] == c + d;
  }

  lemma {:induction false} PassesOfCompose(a: seq<Visit>, b: seq<Visit>, c: seq<Visit>, d: seq<Visit>, e: seq<Visit>, g: seq<Visit>, list: DrawList, bk: Bucket)
    ensures PassesOf(a + b + c + d + e + g, list, bk)
         == PassesOf(a, list, bk) + PassesOf(b, list, bk) + PassesOf(c, list, bk)
            + PassesOf(d, list, bk) + PassesOf(e, list, bk) + PassesOf(g, list, bk)
  {
    PassesOfAppend(a + b + c + d + e, g, list, bk);
    PassesOfAppend(a + b + c + d, e, list, bk);
    PassesOfAppend(a + b + c, d, list, bk);
    PassesOfAppend(a + b, c, list, bk);
    PassesOfAppend(a, b, list, bk);
  }

  /** Only the line passes visit the on-top scene lines. */
  lemma {:induction false} OthersAvoidLines(f: FrameFlags)
    ensures PassesOf(if f.delayed then [] else ScenePlan(), SceneList, LinesOnTop) == []
    ensures PassesOf(EarlyOnTop(f.hlwholeontop), SceneList, LinesOnTop) == []
    ensures PassesOf(Prepass(f), SceneList, LinesOnTop) == []
    ensures PassesOf(LateHighlight(f.hlwholeontop), SceneList, LinesOnTop) == []
    ensures PassesOf([VOpaque(SelectionList, SelsPointOnTop, PassHighlight, false)], SceneList, LinesOnTop) == []
  {
    PassesOfAvoids(if f.delayed then [] else ScenePlan(), SceneList, LinesOnTop);
    PassesOfAvoids(EarlyOnTop(f.hlwholeontop), SceneList, LinesOnTop);
    PassesOfAvoids(Prepass(f), SceneList, LinesOnTop);
    PassesOfAvoids(LateHighlight(f.hlwholeontop), SceneList, LinesOnTop);
    PassesOfAvoids([VOpaque(SelectionList, SelsPointOnTop, PassHighlight, false)], SceneList, LinesOnTop);
  }

  /** No visit of the list is in depth-only mode. */
  predicate Drawing(vs: seq<Visit>)
  {
    forall i :: 0 <= i < |vs| ==> !vs[i].depthonly
  }

  /** Depth-only visits are exactly those of the prepass, which a frame makes only with line styling on. */
  lemma {:induction false} DepthOnlyVisits(f: FrameFlags, v: Visit)
    requires v in Plan(f) && v.depthonly
    ensures LineStyled(f) && !ExitsEarly(f) && v in DepthPrepass(f)
  {
    var s: seq<Visit> := if f.delayed then [] else ScenePlan();
    var a, b, c, d, e := EarlyOnTop(f.hlwholeontop), Prepass(f), LinePasses(f, LinePass(f)), SecondPass(f), LateHighlight(f.hlwholeontop);
    var g := [VOpaque(SelectionList, SelsPointOnTop, PassHighlight, false)];
    assert Plan(f) == s + (if ExitsEarly(f) then [] else a + b + c + d + e + g);
    OthersDrawing(f);
    DrawingExcludes(s, v);
    DrawingExcludes(a, v);
    DrawingExcludes(c, v);
    DrawingExcludes(d, v);
    DrawingExcludes(e, v);
    DrawingExcludes(g, v);
  }

  lemma {:induction false} DrawingExcludes(vs: seq<Visit>, v: Visit)
    requires Drawing(vs) && v.depthonly
    ensures v !in vs
  {
  }

  /** Every part of a frame but the prepass draws. */
  lemma {:induction false} OthersDrawing(f: FrameFlags)
    ensures Drawing(if f.delayed then [] else ScenePlan())
    ensures Drawing(EarlyOnTop(f.hlwholeontop)) && Drawing(LinePasses(f, LinePass(f)))
    ensures Drawing(SecondPass(f)) && Drawing(LateHighlight(f.hlwholeontop))
    ensures Drawing([VOpaque(SelectionList, SelsPointOnTop, PassHighlight, false)])
  {
  }
}

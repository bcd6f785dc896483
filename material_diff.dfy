/**
 * `applyMaterial` as a state diff: given the material currently applied to
 * OpenGL and the material a draw entry asks for, the new applied material and
 * the commands issued to get there. Every toggle is issued only when it is the
 * first material or the tracked value differs, so re-applying the result issues
 * nothing but the colour, which the source always sets.
 */
module MaterialDiff {
  import opened Wrappers
  import opened RenderTypes

  /** The renderer flags `applyMaterial` reads besides its arguments. */
  datatype Env = Env(shadowmapping: bool, depthwriteonly: bool, notexture: bool, params: ViewParams)

  /** The result: whether the entry may be drawn, the new applied material, the commands issued. */
  datatype Applied = Applied(ok: bool, state: Material, cmds: seq<GLCmd>)

  /** A stage's result: the settings it leaves and the commands it issued. */
  datatype Step<S> = Step(s: S, cmds: seq<GLCmd>)

  /** The values derived from the requested material, the pass and the view parameters. */
  datatype Wanted = Wanted(
    transp: bool,
    depthtest: bool,
    depthwrite: bool,
    depthfunc: DepthFunc,
    linepattern: bv32,
    col: bv32,
    overrideflags: set<OverrideFlag>,
    linewidth: real,
    pointsize: real)

  // ---------------------------------------------------------------------
  // Derived values

  /** The selection line pattern, with the scale in the upper 16 bits when it is above 1. */
  function SelLinePattern(p: ViewParams): bv32
  {
    if p.selectionLinePattern != 0 && p.selectionLinePatternScale > 1
    then p.selectionLinePattern | (((p.selectionLinePatternScale % 0x1_0000_0000) as bv32) << 16)
    else p.selectionLinePattern
  }

  /** The diffuse colour with its alpha byte lowered to the on-top transparency when that is smaller. */
  function OnTopColour(col: bv32, alpha: bv32): (r: bv32)
    ensures r & 0xffff_ff00 == col & 0xffff_ff00
    ensures r & 0xff == (if alpha < col & 0xff then alpha else col & 0xff)
  {
    if alpha < col & 0xff then AlphaReplaced(col, alpha); (col & 0xffff_ff00) | alpha else col
  }

  lemma {:induction false} AlphaReplaced(col: bv32, alpha: bv32)
    requires alpha < col & 0xff
    ensures ((col & 0xffff_ff00) | alpha) & 0xffff_ff00 == col & 0xffff_ff00
    ensures ((col & 0xffff_ff00) | alpha) & 0xff == alpha
  {
  }

  function Thicken(p: ViewParams): real
  {
    if p.selectionLineThicken < 1.0 then 1.0 else p.selectionLineThicken
  }

  /** Caps a scaled size at the larger of the unscaled size and the limit, when the limit is above 1. */
  function Capped(w: real, base: real, limit: real): real
  {
    if limit > 1.0 then Min(w, Max(base, limit)) else w
  }

  /** A highlighted line is never thinner, and no wider than the maximum (or its own width). */
  function HighlightWidth(lw: real, p: ViewParams): (r: real)
    ensures lw >= 0.0 ==> lw <= r
    ensures p.selectionLineMaxWidth > 1.0 ==> r <= Max(lw, p.selectionLineMaxWidth)
  {
    HighlightGrows(lw, p.selectionLineMaxWidth, Thicken(p));
    Capped(lw * Thicken(p), lw, p.selectionLineMaxWidth)
  }

  /** A size scaled by at least 1 and capped never drops below the unscaled size. */
  lemma {:induction false} HighlightGrows(x: real, limit: real, scale: real)
    requires scale >= 1.0
    ensures x >= 0.0 ==> x <= Capped(x * scale, x, limit)
    ensures limit > 1.0 ==> Capped(x * scale, x, limit) <= Max(x, limit)
  {
    if x >= 0.0 {
      assert x * scale == x + x * (scale - 1.0);
      assert x * (scale - 1.0) >= 0.0;
    }
  }

  /** A highlighted point is never smaller, and no larger than the maximum (or its own size). */
  function HighlightPointSize(ps: real, p: ViewParams): (r: real)
    ensures ps >= 0.0 ==> ps <= r
    ensures p.selectionPointMaxSize > 1.0 ==> r <= Max(ps, p.selectionPointMaxSize)
  {
    var scale := if p.selectionPointScale < 1.0 then Thicken(p) else p.selectionPointScale;
    HighlightGrows(ps, p.selectionPointMaxSize, scale);
    Capped(ps * scale, ps, p.selectionPointMaxSize)
  }

  function WantedValues(next: Material, transp: bool, pass: nat, p: ViewParams): (w: Wanted)
    // on-top entries are drawn without depth test, except in the solid-line pass
    ensures next.onTop && LineMode(pass) != PassLineSolid ==> !w.depthtest
    // transparent entries that are not on top never write depth
    ensures !next.onTop && transp ==> !w.depthwrite && w.transp
    ensures LineMode(pass) == PassLineSolid ==> w.depthtest && !w.depthwrite && w.depthfunc == LEqual
    ensures LineMode(pass) == PassLinePattern ==> !w.depthtest
    // the on-top line-pattern pass keeps the colour, lowers its alpha and forces blending
    ensures pass == PassLinePattern ==>
      w.transp && FlagTransparency in w.overrideflags && w.col == OnTopColour(next.shading.diffuse, p.transparencyOnTopAlpha)
    ensures pass != PassLinePattern ==> w.col == next.shading.diffuse && w.overrideflags == next.shading.overrideflags && w.transp == transp
    ensures LineMode(pass) != PassLinePattern ==> w.linepattern == next.stroke.linepattern
    ensures !IsHighlightPass(pass) ==> w.linewidth == next.stroke.linewidth && w.pointsize == next.stroke.pointsize
    ensures IsHighlightPass(pass) ==>
      w.linewidth == HighlightWidth(next.stroke.linewidth, p) && w.pointsize == HighlightPointSize(next.stroke.pointsize, p)
  {
    var base := Wanted(
      transp,
      if next.onTop then false else next.switches.depthtest,
      if !next.onTop && transp then false else next.switches.depthwrite,
      next.switches.depthfunc, next.stroke.linepattern, next.shading.diffuse, next.shading.overrideflags,
      next.stroke.linewidth, next.stroke.pointsize);
    var lined :=
      if LineMode(pass) == PassLinePattern then
        var w1 := if pass == PassLinePattern
          then base.(transp := true, col := OnTopColour(next.shading.diffuse, p.transparencyOnTopAlpha),
                     overrideflags := base.overrideflags + {FlagTransparency})
          else base;
        var sel := SelLinePattern(p);
        w1.(depthtest := false, linepattern := if sel != 0 && !next.hasLinePattern then sel else next.stroke.linepattern)
      else if LineMode(pass) == PassLineSolid then
        base.(depthtest := true, depthfunc := LEqual, depthwrite := false)
      else base;
    if IsHighlightPass(pass)
    then lined.(linewidth := HighlightWidth(next.stroke.linewidth, p), pointsize := HighlightPointSize(next.stroke.pointsize, p))
    else lined
  }

  // ---------------------------------------------------------------------
  // Command helpers

  function CapCmd(cap: Cap, on: bool): GLCmd
  {
    if on then Enable(cap) else Disable(cap)
  }

  /** `setGLFeature`: toggles `cap` only when the bit changes. */
  function FeatureCmds(cap: Cap, current: bool, next: bool): seq<GLCmd>
  {
    if current && !next then [Disable(cap)]
    else if !current && next then [Enable(cap)]
    else []
  }

  function OffsetCmds(current: OffsetStyle, next: OffsetStyle): seq<GLCmd>
  {
    FeatureCmds(PolygonOffsetFill, current.filled, next.filled)
    + FeatureCmds(PolygonOffsetLine, current.lines, next.lines)
    + FeatureCmds(PolygonOffsetPoint, current.points, next.points)
  }

  /** A pattern whose low 16 bits are all set is a solid line. */
  predicate Stippled(lp: bv32)
  {
    lp & 0xffff != 0xffff
  }

  /** A solid line switches stippling off; any other pattern switches it on and sets the pattern. */
  function StippleCmds(lp: bv32): seq<GLCmd>
  {
    if !Stippled(lp) then [Disable(LineStipple)]
    else [Enable(LineStipple), LineStippleCmd(lp >> 16, lp & 0xffff)]
  }

  function FillOf(d: DrawStyle): PolygonFill
  {
    match d
    case Lines => LinePolygons
    case Points => PointPolygons
    case _ => FillPolygons
  }

  /** The entry of texture unit `unit`, if any. */
  function TextureAt(ts: seq<TextureEntry>, unit: int): Option<TextureEntry>
  {
    if |ts| == 0 then None
    else if ts[0].unit == unit then Some(ts[0])
    else TextureAt(ts[1..], unit)
  }

  /** `renderTextures`: each texture of `next`, in order, unless its unit already holds that entry. */
  function TextureCmds(current: seq<TextureEntry>, next: seq<TextureEntry>): seq<GLCmd>
  {
    if |next| == 0 then []
    else
      var t := next[0];
      (if TextureAt(current, t.unit) == Some(t) then [] else [RenderTexture(t.unit, t.texture)])
      + TextureCmds(current, next[1..])
  }

  /** Exactly the textures of `next` that their unit does not already hold are rendered. */
  lemma {:induction false} TextureCmdsSpec(current: seq<TextureEntry>, next: seq<TextureEntry>)
    ensures forall t :: t in next && TextureAt(current, t.unit) != Some(t) ==>
      RenderTexture(t.unit, t.texture) in TextureCmds(current, next)
    ensures forall x :: x in TextureCmds(current, next) ==>
      exists t :: t in next && TextureAt(current, t.unit) != Some(t) && x == RenderTexture(t.unit, t.texture)
  {
    if |next| > 0 {
      var t := next[0];
      TextureCmdsSpec(current, next[1..]);
      assert forall u :: u in next <==> u == t || u in next[1..];
    }
  }

  function ClipperCmds(cs: seq<nat>): seq<GLCmd>
  {
    seq(|cs|, i requires 0 <= i < |cs| => RenderClipper(cs[i]))
  }

  function LightCmds(ls: seq<nat>): seq<GLCmd>
  {
    seq(|ls|, i requires 0 <= i < |ls| => RenderLight(ls[i]))
  }

  // ---------------------------------------------------------------------
  // Stages

  /**
   * One tracked setting: its commands when `when` holds, nothing otherwise.
   * Each setting is compared with the applied value on its own ("first, or
   * the tracked value differs"); a stage's commands are the segments of its
   * settings in the order the source issues them.
   */
  function Emit(when: bool, xs: seq<GLCmd>): seq<GLCmd>
  {
    if when then xs else []
  }

  /** While shadow mapping, on-top entries and entries that cast no shadow are not drawn. */
  predicate Refused(next: Material, env: Env)
  {
    env.shadowmapping && (next.onTop || !next.castsShadow)
  }

  /** The applied material in depth-write-only mode. */
  function DepthOnly(cur: Material): Material
  {
    cur.(textures := [], pervertexcolor := false,
         switches := cur.switches.(lightmodel := BaseColor, depthwrite := true, depthfunc := Less, depthtest := true))
  }

  /** Depth-write-only mode: no texture, base colour, depth write on, GL_LESS, depth test on. */
  function DepthWriteOnly(cur: Material): (r: Step<Material>)
    ensures r.s == DepthOnly(cur)
    ensures cur == DepthOnly(cur) ==> r.cmds == []
  {
    var sw := cur.switches;
    Step(DepthOnly(cur),
         Emit(|cur.textures| > 0, [ResetState])
         + Emit(sw.lightmodel != BaseColor, [Disable(Lighting)])
         + Emit(!sw.depthwrite, [DepthMask(true)])
         + Emit(sw.depthfunc != Less, [SetDepthFunc(Less)])
         + Emit(!sw.depthtest, [Enable(DepthTest)]))
  }

  /** The clippers kept: none while shadow mapping, nor for on-top entries when sections skip them. */
  function KeptClippers(next: Material, env: Env): seq<nat>
  {
    if env.shadowmapping
       || ((env.params.noSectionOnTop || (env.params.sectionConcave && |next.clippers| > 1)) && next.onTop)
    then [] else next.clippers
  }

  predicate ClipperChanged(cur: Material, next: Material, first: bool, env: Env)
  {
    first || cur.clippers != KeptClippers(next, env)
  }

  predicate TextureChanged(cur: Material, next: Material, first: bool, env: Env)
  {
    ClipperChanged(cur, next, first, env) || (next.kind == Triangle && cur.textures != next.textures)
  }

  predicate LightChanged(cur: Material, next: Material, first: bool, env: Env)
  {
    TextureChanged(cur, next, first, env) || (next.kind == Triangle && cur.lights != next.lights)
  }

  /** Clippers, textures and lights: re-rendered after a state reset when any of them changed. */
  function Resources(cur: Material, next: Material, first: bool, env: Env): (r: Step<Material>)
    ensures r.cmds == [] <==> !LightChanged(cur, next, first, env)
  {
    var m0 := cur.(pervertexcolor := next.pervertexcolor);
    if !LightChanged(cur, next, first, env) then
      assert !TextureChanged(cur, next, first, env);
      Step(m0, [])
    else
      var clippers := KeptClippers(next, env);
      var tex := !env.notexture && TextureChanged(cur, next, first, env);
      Step(m0.(clippers := clippers, textures := if tex then next.textures else cur.textures, lights := next.lights),
           [ResetState] + ClipperCmds(clippers)
           + (if tex then TextureCmds(cur.textures, next.textures) else [])
           + LightCmds(next.lights))
  }

  /**
   * The material after the resources carries the clippers kept, and for
   * triangles the requested lights and (unless textures are off) textures;
   * nothing else but the per-vertex-colour flag changes.
   */
  lemma {:induction false} ResourcesState(cur: Material, next: Material, first: bool, env: Env)
    ensures var r := Resources(cur, next, first, env);
      r.s.clippers == KeptClippers(next, env) &&
      (next.kind == Triangle ==> r.s.lights == next.lights && (!env.notexture ==> r.s.textures == next.textures)) &&
      r.s == cur.(pervertexcolor := next.pervertexcolor, clippers := r.s.clippers,
                  textures := r.s.textures, lights := r.s.lights)
  {
  }

  /** The depth and lighting switches a request asks for. */
  function SwitchesFor(w: Wanted, next: Material): Switches
  {
    Switches(w.depthtest, next.switches.depthclamp, w.depthwrite, w.depthfunc, next.switches.lightmodel)
  }

  /** Depth test, depth clamp, depth write, depth function and lighting, moving from `cur` to `t`. */
  function SwitchCmds(cur: Switches, t: Switches, first: bool): (r: seq<GLCmd>)
    ensures !first && cur == t ==> r == []
    ensures first ==> |r| == 5
  {
    Emit(first || cur.depthtest != t.depthtest, [CapCmd(DepthTest, t.depthtest)])
    + Emit(first || cur.depthclamp != t.depthclamp, [CapCmd(DepthClamp, t.depthclamp)])
    + Emit(first || cur.depthwrite != t.depthwrite, [DepthMask(t.depthwrite)])
    + Emit(first || cur.depthfunc != t.depthfunc, [SetDepthFunc(t.depthfunc)])
    + Emit(first || cur.lightmodel != t.lightmodel, [CapCmd(Lighting, t.lightmodel == Phong)])
  }

  /** The emission colour: cleared under base-colour lighting. */
  function Emissive(lm: LightModel, next: Material): bv32
  {
    if lm == BaseColor then 0 else next.shading.emissive
  }

  /** The colour, blending and emission a request asks for under lighting model `lm`. */
  function ShadingFor(w: Wanted, lm: LightModel, next: Material): Shading
  {
    Shading(w.col, Emissive(lm, next), w.overrideflags)
  }

  /** The blend function is set again when the flags change or the transparency alpha moves. */
  predicate BlendChanged(cur: Shading, t: Shading)
  {
    t.overrideflags != cur.overrideflags
    || (FlagTransparency in t.overrideflags && t.diffuse & 0xff != cur.diffuse & 0xff)
  }

  /** Blending by constant alpha when the transparency flag is set, by source alpha otherwise. */
  function BlendCmds(t: Shading): seq<GLCmd>
  {
    if FlagTransparency in t.overrideflags then [BlendColor(t.diffuse & 0xff), BlendFunc(true)]
    else [BlendFunc(false)]
  }

  /** The colour (always: drawing may have changed it), then blending and emission. */
  function ShadingCmds(cur: Shading, t: Shading, first: bool): (r: seq<GLCmd>)
    ensures |r| > 0 && r[0] == Color(t.diffuse)
    ensures !first && cur == t ==> r == [Color(t.diffuse)]
  {
    [Color(t.diffuse)]
    + Emit(BlendChanged(cur, t), BlendCmds(t))
    + Emit(first || cur.emissive != t.emissive, [SetMaterialColor(Emission, t.emissive)])
  }

  /** Line width and stipple pattern. */
  function LineCmds(cur: Stroke, t: Stroke, first: bool): (r: seq<GLCmd>)
    ensures !first && cur.linewidth == t.linewidth && cur.linepattern == t.linepattern ==> r == []
  {
    Emit(first || cur.linewidth != t.linewidth, [LineWidth(t.linewidth)])
    + Emit(first || cur.linepattern != t.linepattern, StippleCmds(t.linepattern))
  }

  function PointCmds(cur: Stroke, t: Stroke, first: bool): (r: seq<GLCmd>)
    ensures !first && cur.pointsize == t.pointsize ==> r == []
  {
    Emit(first || cur.pointsize != t.pointsize, [PointSize(t.pointsize)])
  }

  /** The stroke a request leaves: line settings for lines, the point size for points. */
  function StrokeFor(cur: Stroke, next: Material, w: Wanted): Stroke
  {
    match next.kind
    case Line => cur.(linewidth := w.linewidth, linepattern := w.linepattern)
    case Point => cur.(pointsize := w.pointsize)
    case Triangle => cur
  }

  function StrokeCmds(cur: Stroke, t: Stroke, kind: PrimType, first: bool): seq<GLCmd>
  {
    match kind
    case Line => LineCmds(cur, t, first)
    case Point => PointCmds(cur, t, first)
    case Triangle => []
  }

  function TwoSideOf(next: Material, transp: bool): int { if transp then 1 else next.surface.twoside }
  function CullingOf(next: Material, transp: bool): int { if transp then 0 else next.surface.culling }

  /** The requested surface; a transparent entry is drawn two-sided and without culling. */
  function SurfaceFor(next: Material, transp: bool): Surface
  {
    next.surface.(twoside := TwoSideOf(next, transp), culling := CullingOf(next, transp))
  }

  /** Ambient and specular colour, shininess, front face and two-sided lighting. */
  function LookCmds(cur: Surface, t: Surface, first: bool): (r: seq<GLCmd>)
    ensures (!first && cur.ambient == t.ambient && cur.specular == t.specular && cur.shininess == t.shininess
             && cur.vertexordering == t.vertexordering && cur.twoside == t.twoside) ==> r == []
  {
    Emit(first || cur.ambient != t.ambient, [SetMaterialColor(Ambient, t.ambient)])
    + Emit(first || cur.specular != t.specular, [SetMaterialColor(Specular, t.specular)])
    + Emit(first || cur.shininess != t.shininess, [Shininess(t.shininess * 128.0)])
    + Emit(first || cur.vertexordering != t.vertexordering, [FrontFace(t.vertexordering)])
    + Emit(first || cur.twoside != t.twoside, [TwoSide(t.twoside != 0)])
  }

  /** Face culling and polygon mode. */
  function CullCmds(cur: Surface, t: Surface, first: bool): (r: seq<GLCmd>)
    ensures (!first && cur.culling == t.culling && cur.drawstyle == t.drawstyle) ==> r == []
  {
    Emit(first || cur.culling != t.culling, [CapCmd(CullFace, t.culling != 0)])
    + Emit(first || cur.drawstyle != t.drawstyle, [PolygonMode(FillOf(t.drawstyle))])
  }

  /** Polygon offset styles (through `setGLFeature`), then the offset factor and units. */
  function PolygonOffsetCmds(cur: Surface, t: Surface, first: bool): (r: seq<GLCmd>)
    ensures (!first && cur.polygonoffsetstyle == t.polygonoffsetstyle && cur.polygonoffsetfactor == t.polygonoffsetfactor
             && cur.polygonoffsetunits == t.polygonoffsetunits) ==> r == []
  {
    Emit(first || cur.polygonoffsetstyle != t.polygonoffsetstyle,
         OffsetCmds(cur.polygonoffsetstyle, t.polygonoffsetstyle))
    + Emit(first || cur.polygonoffsetfactor != t.polygonoffsetfactor || cur.polygonoffsetunits != t.polygonoffsetunits,
           [PolygonOffset(t.polygonoffsetfactor, t.polygonoffsetunits)])
  }

  function RasterCmds(cur: Surface, t: Surface, first: bool): seq<GLCmd>
  {
    CullCmds(cur, t, first) + PolygonOffsetCmds(cur, t, first)
  }

  function SurfaceCmds(cur: Surface, t: Surface, first: bool): (r: seq<GLCmd>)
    ensures !first && cur == t ==> r == []
  {
    LookCmds(cur, t, first) + RasterCmds(cur, t, first)
  }

  /** The fields the material never takes from the request. */
  predicate SameIdentity(s: Material, cur: Material)
  {
    s.id == cur.id && s.kind == cur.kind && s.onTop == cur.onTop && s.castsShadow == cur.castsShadow
    && s.hasLinePattern == cur.hasLinePattern && s.transptexture == cur.transptexture
    && s.partialhighlight == cur.partialhighlight && s.outline == cur.outline
  }

  /** Lines and points stop after their own settings unless this is the first material. */
  predicate TakesSurface(kind: PrimType, first: bool)
  {
    kind == Triangle || first
  }

  /** The applied material a request leaves, from `m` (the material after the resources). */
  function Target(m: Material, next: Material, first: bool, w: Wanted): Material
  {
    m.(switches := SwitchesFor(w, next), shading := ShadingFor(w, next.switches.lightmodel, next),
       stroke := StrokeFor(m.stroke, next, w),
       surface := if TakesSurface(next.kind, first) then SurfaceFor(next, w.transp) else m.surface)
  }

  /**
   * The switches, shading, stroke and surface commands moving the applied
   * material `m` to `t`; only the colour is issued when nothing changes.
   */
  function StageCmds(m: Material, t: Material, kind: PrimType, first: bool): (r: seq<GLCmd>)
    ensures !first && m == t ==> r == [Color(t.shading.diffuse)]
  {
    SwitchCmds(m.switches, t.switches, first) + ShadingCmds(m.shading, t.shading, first)
    + StrokeCmds(m.stroke, t.stroke, kind, first)
    + (if TakesSurface(kind, first) then SurfaceCmds(m.surface, t.surface, first) else [])
  }

  /**
   * The applied material after a successful apply: what the request and the
   * pass ask for, with the line, point and surface settings taken only for
   * the primitive types (or the first material) that set them.
   */
  predicate Conforms(s: Material, cur: Material, next: Material, first: bool, w: Wanted, env: Env)
  {
    SameIdentity(s, cur)
    && s.pervertexcolor == next.pervertexcolor
    && s.clippers == KeptClippers(next, env)
    && (next.kind == Triangle ==> s.lights == next.lights && (!env.notexture ==> s.textures == next.textures))
    && s.switches == SwitchesFor(w, next)
    && s.shading == ShadingFor(w, next.switches.lightmodel, next)
    && s.stroke == StrokeFor(cur.stroke, next, w)
    && s.surface == (if TakesSurface(next.kind, first) then SurfaceFor(next, w.transp) else cur.surface)
  }

  /**
   * `applyMaterial(next, transp, pass)` from the applied material `cur`;
   * `first` is whether no material was applied since the last reset.
   */
  function Apply(cur: Material, next: Material, first: bool, transp: bool, pass: nat, env: Env): Applied
  {
    if Refused(next, env) then Applied(false, cur, [])
    else if env.depthwriteonly then
      var a := DepthWriteOnly(cur);
      Applied(true, a.s, a.cmds)
    else
      var res := Resources(cur, next, first, env);
      var t := Target(res.s, next, first, WantedValues(next, transp, pass, env.params));
      Applied(true, t, res.cmds + StageCmds(res.s, t, next.kind, first))
  }

  /**
   * An apply is refused exactly when the shadow map refuses the material, and
   * then changes nothing; in depth-write-only mode it only enters that mode;
   * otherwise the new applied material conforms to the request and the pass.
   */
  lemma {:induction false} ApplyConforms(cur: Material, next: Material, first: bool, transp: bool, pass: nat, env: Env)
    ensures var r := Apply(cur, next, first, transp, pass, env);
      (r.ok <==> !Refused(next, env)) &&
      (!r.ok ==> r.state == cur && r.cmds == []) &&
      (r.ok && env.depthwriteonly ==> r.state == DepthOnly(cur)) &&
      (r.ok && !env.depthwriteonly ==> Conforms(r.state, cur, next, first, WantedValues(next, transp, pass, env.params), env))
  {
    if !Refused(next, env) && !env.depthwriteonly {
      ResourcesState(cur, next, first, env);
    }
  }

  // ---------------------------------------------------------------------
  // Re-applying is free

  /** The resources of a material already carrying them are left alone. */
  lemma {:induction false} ResourcesSettled(s: Material, next: Material, env: Env)
    requires s.pervertexcolor == next.pervertexcolor && s.clippers == KeptClippers(next, env)
    requires next.kind == Triangle ==> s.lights == next.lights && s.textures == next.textures
    ensures Resources(s, next, false, env) == Step(s, [])
  {
  }

  /** A target is its own target. */
  lemma {:induction false} TargetSettled(m: Material, next: Material, first: bool, w: Wanted)
    ensures Target(Target(m, next, first, w), next, false, w) == Target(m, next, first, w)
  {
  }

  /**
   * Applying a material to the state an earlier apply of it produced issues
   * only the colour, which the source always sets (and nothing at all in
   * depth-write-only mode or when the entry is refused).
   */
  lemma {:induction false} ApplyIdempotent(cur: Material, next: Material, first: bool, transp: bool, pass: nat, env: Env)
    requires !env.notexture
    ensures var r1 := Apply(cur, next, first, transp, pass, env);
      var r2 := Apply(r1.state, next, false, transp, pass, env);
      r2.ok == r1.ok && r2.state == r1.state &&
      r2.cmds == (if r1.ok && !env.depthwriteonly then [Color(WantedValues(next, transp, pass, env.params).col)] else [])
  {
    if !Refused(next, env) && !env.depthwriteonly {
      var w := WantedValues(next, transp, pass, env.params);
      var res := Resources(cur, next, first, env);
      var s1 := Target(res.s, next, first, w);
      ResourcesState(cur, next, first, env);
      ResourcesSettled(s1, next, env);
      TargetSettled(res.s, next, first, w);
    }
  }

  // ---------------------------------------------------------------------
  // The applied material mirrors OpenGL's capabilities

  /** The capabilities whose state the applied material records. */
  predicate MaterialCap(c: Cap)
  {
    !c.Blend? && !c.StencilTest? && !c.ClipPlane? && !c.ColorMaterial?
  }

  /** Whether the applied material `m` says capability `c` is enabled. */
  function CapOf(m: Material, c: Cap): bool
  {
    match c
    case DepthTest => m.switches.depthtest
    case DepthClamp => m.switches.depthclamp
    case Lighting => m.switches.lightmodel == Phong
    case LineStipple => Stippled(m.stroke.linepattern)
    case CullFace => m.surface.culling != 0
    case PolygonOffsetFill => m.surface.polygonoffsetstyle.filled
    case PolygonOffsetLine => m.surface.polygonoffsetstyle.lines
    case PolygonOffsetPoint => m.surface.polygonoffsetstyle.points
    case _ => false
  }

  function StepCap(on: bool, c: Cap, x: GLCmd): bool
  {
    if x == Enable(c) then true else if x == Disable(c) then false else on
  }

  /** Whether `c` is enabled after the commands `xs`, starting from `on`. */
  function CapAfter(on: bool, c: Cap, xs: seq<GLCmd>): bool
    decreases |xs|
  {
    if |xs| == 0 then on else CapAfter(StepCap(on, c, xs[0]), c, xs[1..])
  }

  lemma {:induction false} CapAfterAppend(on: bool, c: Cap, xs: seq<GLCmd>, ys: seq<GLCmd>)
    ensures CapAfter(on, c, xs + ys) == CapAfter(CapAfter(on, c, xs), c, ys)
    decreases |xs|
  {
    if |xs| == 0 {
      assert xs + ys == ys;
    } else {
      assert (xs + ys)[0] == xs[0];
      assert (xs + ys)[1..] == xs[1..] + ys;
      CapAfterAppend(StepCap(on, c, xs[0]), c, xs[1..], ys);
    }
  }

  lemma {:induction false} CapAfterSingle(on: bool, c: Cap, x: GLCmd)
    ensures CapAfter(on, c, [x]) == StepCap(on, c, x)
  {
    assert [x][1..] == [];
  }

  lemma {:induction false} Compose3(on: bool, c: Cap, e1: seq<GLCmd>, e2: seq<GLCmd>, e3: seq<GLCmd>)
    ensures CapAfter(on, c, e1 + e2 + e3) == CapAfter(CapAfter(CapAfter(on, c, e1), c, e2), c, e3)
  {
    CapAfterAppend(on, c, e1 + e2, e3);
    CapAfterAppend(on, c, e1, e2);
  }

  lemma {:induction false} Compose4(on: bool, c: Cap, e1: seq<GLCmd>, e2: seq<GLCmd>, e3: seq<GLCmd>, e4: seq<GLCmd>)
    ensures CapAfter(on, c, e1 + e2 + e3 + e4)
         == CapAfter(CapAfter(CapAfter(CapAfter(on, c, e1), c, e2), c, e3), c, e4)
  {
    CapAfterAppend(on, c, e1 + e2 + e3, e4);
    Compose3(on, c, e1, e2, e3);
  }

  lemma {:induction false} Compose5(on: bool, c: Cap, e1: seq<GLCmd>, e2: seq<GLCmd>, e3: seq<GLCmd>, e4: seq<GLCmd>, e5: seq<GLCmd>)
    ensures CapAfter(on, c, e1 + e2 + e3 + e4 + e5)
         == CapAfter(CapAfter(CapAfter(CapAfter(CapAfter(on, c, e1), c, e2), c, e3), c, e4), c, e5)
  {
    CapAfterAppend(on, c, e1 + e2 + e3 + e4, e5);
    Compose4(on, c, e1, e2, e3, e4);
  }

  /** A guarded toggle of `c` itself. */
  lemma {:induction false} EmitOwn(on: bool, c: Cap, when: bool, v: bool)
    ensures CapAfter(on, c, Emit(when, [CapCmd(c, v)])) == if when then v else on
  {
    if when { CapAfterSingle(on, c, CapCmd(c, v)); }
  }

  /** A guarded toggle of another capability leaves `c` alone. */
  lemma {:induction false} EmitOther(on: bool, c: Cap, when: bool, d: Cap, v: bool)
    requires c != d
    ensures CapAfter(on, c, Emit(when, [CapCmd(d, v)])) == on
  {
    if when { CapAfterSingle(on, c, CapCmd(d, v)); }
  }

  /** No command of `xs` enables or disables anything. */
  predicate Inert(xs: seq<GLCmd>)
  {
    forall i :: 0 <= i < |xs| ==> !xs[i].Enable? && !xs[i].Disable?
  }

  lemma {:induction false} CapAfterInert(on: bool, c: Cap, xs: seq<GLCmd>)
    requires Inert(xs)
    ensures CapAfter(on, c, xs) == on
    decreases |xs|
  {
    if |xs| > 0 {
      assert Inert(xs[1..]) by {
        forall i | 0 <= i < |xs[1..]| ensures !xs[1..][i].Enable? && !xs[1..][i].Disable? {
          assert xs[1..][i] == xs[i + 1];
        }
      }
      CapAfterInert(on, c, xs[1..]);
    }
  }

  lemma {:induction false} EmitInert(on: bool, c: Cap, when: bool, x: GLCmd)
    requires !x.Enable? && !x.Disable?
    ensures CapAfter(on, c, Emit(when, [x])) == on
  {
    if when { CapAfterSingle(on, c, x); }
  }

  // setGLFeature

  /** `setGLFeature` toggles its capability exactly when the style changes it. */
  lemma {:induction false} FeatureCmdsReach(cap: Cap, current: bool, next: bool, c: Cap, on: bool)
    requires c == cap ==> on == current
    ensures CapAfter(on, c, FeatureCmds(cap, current, next)) == if c == cap then next else on
    ensures FeatureCmds(cap, current, next) == [] <==> current == next
  {
    if current != next { CapAfterSingle(on, c, FeatureCmds(cap, current, next)[0]); }
  }

  /** The polygon offset styles issue nothing exactly when they are unchanged. */
  lemma {:induction false} OffsetCmdsEmpty(current: OffsetStyle, next: OffsetStyle)
    ensures OffsetCmds(current, next) == [] <==> current == next
  {
    FeatureCmdsReach(PolygonOffsetFill, current.filled, next.filled, PolygonOffsetFill, current.filled);
    FeatureCmdsReach(PolygonOffsetLine, current.lines, next.lines, PolygonOffsetLine, current.lines);
    FeatureCmdsReach(PolygonOffsetPoint, current.points, next.points, PolygonOffsetPoint, current.points);
  }

  /**
   * After the polygon offset commands every offset capability is as the new
   * style says, given that it was as the current style said; no other
   * capability moves.
   */
  lemma {:induction false} OffsetCmdsReach(current: OffsetStyle, next: OffsetStyle, c: Cap, on: bool)
    requires c == PolygonOffsetFill ==> on == current.filled
    requires c == PolygonOffsetLine ==> on == current.lines
    requires c == PolygonOffsetPoint ==> on == current.points
    ensures CapAfter(on, c, OffsetCmds(current, next))
         == if c == PolygonOffsetFill then next.filled
            else if c == PolygonOffsetLine then next.lines
            else if c == PolygonOffsetPoint then next.points
            else on
  {
    var f := FeatureCmds(PolygonOffsetFill, current.filled, next.filled);
    var l := FeatureCmds(PolygonOffsetLine, current.lines, next.lines);
    var p := FeatureCmds(PolygonOffsetPoint, current.points, next.points);
    Compose3(on, c, f, l, p);
    FeatureCmdsReach(PolygonOffsetFill, current.filled, next.filled, c, on);
    var v1 := CapAfter(on, c, f);
    FeatureCmdsReach(PolygonOffsetLine, current.lines, next.lines, c, v1);
    var v2 := CapAfter(v1, c, l);
    FeatureCmdsReach(PolygonOffsetPoint, current.points, next.points, c, v2);
  }

  /** The stipple commands set `GL_LINE_STIPPLE` as the pattern says and nothing else. */
  lemma {:induction false} StippleCmdsReach(on: bool, c: Cap, lp: bv32)
    ensures CapAfter(on, c, StippleCmds(lp)) == if c == LineStipple then Stippled(lp) else on
  {
    if !Stippled(lp) {
      CapAfterSingle(on, c, Disable(LineStipple));
    } else {
      var x := LineStippleCmd(lp >> 16, lp & 0xffff);
      assert StippleCmds(lp) == [Enable(LineStipple)] + [x];
      CapAfterAppend(on, c, [Enable(LineStipple)], [x]);
      CapAfterSingle(on, c, Enable(LineStipple));
      CapAfterSingle(StepCap(on, c, Enable(LineStipple)), c, x);
    }
  }

  // The stages, capability by capability

  lemma {:induction false} InertAppend(xs: seq<GLCmd>, ys: seq<GLCmd>)
    requires Inert(xs) && Inert(ys)
    ensures Inert(xs + ys)
  {
    forall i | 0 <= i < |xs + ys| ensures !(xs + ys)[i].Enable? && !(xs + ys)[i].Disable? {
      if i >= |xs| {
        assert (xs + ys)[i] == ys[i - |xs|];
      }
    }
  }

  lemma {:induction false} TexturesInert(current: seq<TextureEntry>, next: seq<TextureEntry>)
    ensures Inert(TextureCmds(current, next))
  {
    var ts := TextureCmds(current, next);
    TextureCmdsSpec(current, next);
    forall i | 0 <= i < |ts| ensures !ts[i].Enable? && !ts[i].Disable? {
      assert ts[i] in ts;
    }
  }

  lemma {:induction false} ResourcesInert(cur: Material, next: Material, first: bool, env: Env)
    ensures Inert(Resources(cur, next, first, env).cmds)
  {
    if LightChanged(cur, next, first, env) {
      var head := [ResetState] + ClipperCmds(KeptClippers(next, env));
      var ls := LightCmds(next.lights);
      if !env.notexture && TextureChanged(cur, next, first, env) {
        var ts := TextureCmds(cur.textures, next.textures);
        TexturesInert(cur.textures, next.textures);
        InertAppend(head, ts);
        InertAppend(head + ts, ls);
      } else {
        InertAppend(head, ls);
      }
    }
  }

  /** Depth-write-only mode switches lighting off, depth testing on, and no other capability. */
  lemma {:induction false} DepthWriteOnlyTracks(cur: Material, c: Cap, on: bool)
    requires c == DepthTest ==> on == cur.switches.depthtest
    requires c == Lighting ==> on == (cur.switches.lightmodel == Phong)
    ensures CapAfter(on, c, DepthWriteOnly(cur).cmds)
         == if c == DepthTest then true else if c == Lighting then false else on
  {
    var sw := cur.switches;
    var b0 := |cur.textures| > 0;
    var b1 := sw.lightmodel != BaseColor;
    var e1 := Emit(b1, [CapCmd(Lighting, false)]);
    var e2 := Emit(!sw.depthwrite, [DepthMask(true)]);
    var e3 := Emit(sw.depthfunc != Less, [SetDepthFunc(Less)]);
    var e4 := Emit(!sw.depthtest, [CapCmd(DepthTest, true)]);
    Compose5(on, c, Emit(b0, [ResetState]), e1, e2, e3, e4);
    EmitInert(on, c, b0, ResetState);
    var v1 := CapAfter(on, c, e1);
    if c == Lighting { EmitOwn(on, c, b1, false); } else { EmitOther(on, c, b1, Lighting, false); }
    EmitInert(v1, c, !sw.depthwrite, DepthMask(true));
    EmitInert(v1, c, sw.depthfunc != Less, SetDepthFunc(Less));
    if c == DepthTest { EmitOwn(v1, c, !sw.depthtest, true); } else { EmitOther(v1, c, !sw.depthtest, DepthTest, true); }
  }

  /** The switches set depth testing, depth clamping and lighting as the target says, and no other capability. */
  lemma {:induction false} SwitchCmdsTrack(cur: Switches, t: Switches, first: bool, c: Cap, on: bool)
    requires c == DepthTest ==> on == cur.depthtest
    requires c == DepthClamp ==> on == cur.depthclamp
    requires c == Lighting ==> on == (cur.lightmodel == Phong)
    ensures CapAfter(on, c, SwitchCmds(cur, t, first))
         == if c == DepthTest then t.depthtest
            else if c == DepthClamp then t.depthclamp
            else if c == Lighting then t.lightmodel == Phong
            else on
  {
    var b1 := first || cur.depthtest != t.depthtest;
    var b2 := first || cur.depthclamp != t.depthclamp;
    var b3 := first || cur.depthwrite != t.depthwrite;
    var b4 := first || cur.depthfunc != t.depthfunc;
    var b5 := first || cur.lightmodel != t.lightmodel;
    var e1 := Emit(b1, [CapCmd(DepthTest, t.depthtest)]);
    var e2 := Emit(b2, [CapCmd(DepthClamp, t.depthclamp)]);
    var e5 := Emit(b5, [CapCmd(Lighting, t.lightmodel == Phong)]);
    Compose5(on, c, e1, e2, Emit(b3, [DepthMask(t.depthwrite)]), Emit(b4, [SetDepthFunc(t.depthfunc)]), e5);
    if c == DepthTest { EmitOwn(on, c, b1, t.depthtest); } else { EmitOther(on, c, b1, DepthTest, t.depthtest); }
    var v1 := CapAfter(on, c, e1);
    if c == DepthClamp { EmitOwn(v1, c, b2, t.depthclamp); } else { EmitOther(v1, c, b2, DepthClamp, t.depthclamp); }
    var v2 := CapAfter(v1, c, e2);
    EmitInert(v2, c, b3, DepthMask(t.depthwrite));
    EmitInert(v2, c, b4, SetDepthFunc(t.depthfunc));
    if c == Lighting { EmitOwn(v2, c, b5, t.lightmodel == Phong); }
    else { EmitOther(v2, c, b5, Lighting, t.lightmodel == Phong); }
  }

  lemma {:induction false} ShadingCmdsInert(cur: Shading, t: Shading, first: bool)
    ensures Inert(ShadingCmds(cur, t, first))
  {
  }

  /** The stroke commands set stippling as the target pattern says, and no other capability. */
  lemma {:induction false} StrokeCmdsTrack(cur: Stroke, t: Stroke, kind: PrimType, first: bool, c: Cap, on: bool)
    requires c == LineStipple ==> on == Stippled(cur.linepattern)
    requires kind != Line ==> t.linepattern == cur.linepattern
    ensures CapAfter(on, c, StrokeCmds(cur, t, kind, first))
         == if c == LineStipple then Stippled(t.linepattern) else on
  {
    match kind {
      case Line =>
        var b2 := first || cur.linepattern != t.linepattern;
        CapAfterAppend(on, c, Emit(first || cur.linewidth != t.linewidth, [LineWidth(t.linewidth)]),
                       Emit(b2, StippleCmds(t.linepattern)));
        EmitInert(on, c, first || cur.linewidth != t.linewidth, LineWidth(t.linewidth));
        if b2 { StippleCmdsReach(on, c, t.linepattern); }
      case Point =>
        EmitInert(on, c, first || cur.pointsize != t.pointsize, PointSize(t.pointsize));
      case Triangle =>
    }
  }

  lemma {:induction false} LookCmdsInert(cur: Surface, t: Surface, first: bool)
    ensures Inert(LookCmds(cur, t, first))
  {
  }

  /** Culling and polygon mode: culling as the target says. */
  lemma {:induction false} CullCmdsTrack(cur: Surface, t: Surface, first: bool, c: Cap, on: bool)
    requires c == CullFace ==> on == (cur.culling != 0)
    ensures CapAfter(on, c, CullCmds(cur, t, first)) == if c == CullFace then t.culling != 0 else on
  {
    var b1 := first || cur.culling != t.culling;
    var e1 := Emit(b1, [CapCmd(CullFace, t.culling != 0)]);
    CapAfterAppend(on, c, e1, Emit(first || cur.drawstyle != t.drawstyle, [PolygonMode(FillOf(t.drawstyle))]));
    if c == CullFace { EmitOwn(on, c, b1, t.culling != 0); } else { EmitOther(on, c, b1, CullFace, t.culling != 0); }
    EmitInert(CapAfter(on, c, e1), c, first || cur.drawstyle != t.drawstyle, PolygonMode(FillOf(t.drawstyle)));
  }

  /** The offset styles and values: the offset capabilities as the target says. */
  lemma {:induction false} PolygonOffsetCmdsTrack(cur: Surface, t: Surface, first: bool, c: Cap, on: bool)
    requires c == PolygonOffsetFill ==> on == cur.polygonoffsetstyle.filled
    requires c == PolygonOffsetLine ==> on == cur.polygonoffsetstyle.lines
    requires c == PolygonOffsetPoint ==> on == cur.polygonoffsetstyle.points
    ensures CapAfter(on, c, PolygonOffsetCmds(cur, t, first))
         == if c == PolygonOffsetFill then t.polygonoffsetstyle.filled
            else if c == PolygonOffsetLine then t.polygonoffsetstyle.lines
            else if c == PolygonOffsetPoint then t.polygonoffsetstyle.points
            else on
  {
    var b3 := first || cur.polygonoffsetstyle != t.polygonoffsetstyle;
    var e3 := Emit(b3, OffsetCmds(cur.polygonoffsetstyle, t.polygonoffsetstyle));
    var b4 := first || cur.polygonoffsetfactor != t.polygonoffsetfactor || cur.polygonoffsetunits != t.polygonoffsetunits;
    var x := PolygonOffset(t.polygonoffsetfactor, t.polygonoffsetunits);
    CapAfterAppend(on, c, e3, Emit(b4, [x]));
    if b3 {
      OffsetCmdsReach(cur.polygonoffsetstyle, t.polygonoffsetstyle, c, on);
    }
    EmitInert(CapAfter(on, c, e3), c, b4, x);
  }

  /** The raster commands set culling and the polygon offsets as the target says, and no other capability. */
  lemma {:induction false} RasterCmdsTrack(cur: Surface, t: Surface, first: bool, c: Cap, on: bool)
    requires c == CullFace ==> on == (cur.culling != 0)
    requires c == PolygonOffsetFill ==> on == cur.polygonoffsetstyle.filled
    requires c == PolygonOffsetLine ==> on == cur.polygonoffsetstyle.lines
    requires c == PolygonOffsetPoint ==> on == cur.polygonoffsetstyle.points
    ensures CapAfter(on, c, RasterCmds(cur, t, first))
         == if c == CullFace then t.culling != 0
            else if c == PolygonOffsetFill then t.polygonoffsetstyle.filled
            else if c == PolygonOffsetLine then t.polygonoffsetstyle.lines
            else if c == PolygonOffsetPoint then t.polygonoffsetstyle.points
            else on
  {
    CapAfterAppend(on, c, CullCmds(cur, t, first), PolygonOffsetCmds(cur, t, first));
    CullCmdsTrack(cur, t, first, c, on);
    PolygonOffsetCmdsTrack(cur, t, first, c, CapAfter(on, c, CullCmds(cur, t, first)));
  }

  /** The surface commands set culling and the polygon offsets as the target says, and no other capability. */
  lemma {:induction false} SurfaceCmdsTrack(cur: Surface, t: Surface, first: bool, c: Cap, on: bool)
    requires c == CullFace ==> on == (cur.culling != 0)
    requires c == PolygonOffsetFill ==> on == cur.polygonoffsetstyle.filled
    requires c == PolygonOffsetLine ==> on == cur.polygonoffsetstyle.lines
    requires c == PolygonOffsetPoint ==> on == cur.polygonoffsetstyle.points
    ensures CapAfter(on, c, SurfaceCmds(cur, t, first))
         == if c == CullFace then t.culling != 0
            else if c == PolygonOffsetFill then t.polygonoffsetstyle.filled
            else if c == PolygonOffsetLine then t.polygonoffsetstyle.lines
            else if c == PolygonOffsetPoint then t.polygonoffsetstyle.points
            else on
  {
    LookCmdsInert(cur, t, first);
    CapAfterInert(on, c, LookCmds(cur, t, first));
    CapAfterAppend(on, c, LookCmds(cur, t, first), RasterCmds(cur, t, first));
    RasterCmdsTrack(cur, t, first, c, on);
  }

  /** The stages move every recorded capability from `m`'s setting to `t`'s. */
  lemma {:induction false} StageCmdsTrack(m: Material, t: Material, kind: PrimType, first: bool, c: Cap, on: bool)
    requires MaterialCap(c) && on == CapOf(m, c)
    requires kind != Line ==> t.stroke.linepattern == m.stroke.linepattern
    requires !TakesSurface(kind, first) ==> t.surface == m.surface
    ensures CapAfter(on, c, StageCmds(m, t, kind, first)) == CapOf(t, c)
  {
    var e1 := SwitchCmds(m.switches, t.switches, first);
    var e2 := ShadingCmds(m.shading, t.shading, first);
    var e3 := StrokeCmds(m.stroke, t.stroke, kind, first);
    var e4 := if TakesSurface(kind, first) then SurfaceCmds(m.surface, t.surface, first) else [];
    Compose4(on, c, e1, e2, e3, e4);
    SwitchCmdsTrack(m.switches, t.switches, first, c, on);
    var v1 := CapAfter(on, c, e1);
    ShadingCmdsInert(m.shading, t.shading, first);
    CapAfterInert(v1, c, e2);
    StrokeCmdsTrack(m.stroke, t.stroke, kind, first, c, v1);
    var v3 := CapAfter(v1, c, e3);
    if TakesSurface(kind, first) { SurfaceCmdsTrack(m.surface, t.surface, first, c, v3); }
  }

  /** The depth-write-only transition keeps the recorded capabilities in sync. */
  lemma {:induction false} DepthOnlyInSync(cur: Material, c: Cap)
    requires MaterialCap(c)
    ensures CapAfter(CapOf(cur, c), c, DepthWriteOnly(cur).cmds) == CapOf(DepthOnly(cur), c)
  {
    DepthWriteOnlyTracks(cur, c, CapOf(cur, c));
  }

  /** The resources and the stages keep the recorded capabilities in sync. */
  lemma {:induction false} StagesInSync(cur: Material, next: Material, first: bool, w: Wanted, env: Env, c: Cap)
    requires MaterialCap(c)
    ensures var res := Resources(cur, next, first, env);
      var t := Target(res.s, next, first, w);
      CapAfter(CapOf(cur, c), c, res.cmds + StageCmds(res.s, t, next.kind, first)) == CapOf(t, c)
  {
    var on := CapOf(cur, c);
    var res := Resources(cur, next, first, env);
    var t := Target(res.s, next, first, w);
    ResourcesInert(cur, next, first, env);
    CapAfterInert(on, c, res.cmds);
    CapAfterAppend(on, c, res.cmds, StageCmds(res.s, t, next.kind, first));
    StageCmdsTrack(res.s, t, next.kind, first, c, on);
  }

  /**
   * If OpenGL's capabilities agreed with the applied material before the
   * call, they agree with the new applied material after the commands run:
   * every toggle the material records is issued exactly when needed.
   */
  lemma {:induction false} ApplyKeepsCapsInSync(cur: Material, next: Material, first: bool, transp: bool, pass: nat, env: Env, c: Cap)
    requires MaterialCap(c)
    ensures var r := Apply(cur, next, first, transp, pass, env);
      CapAfter(CapOf(cur, c), c, r.cmds) == CapOf(r.state, c)
  {
    if Refused(next, env) {
    } else if env.depthwriteonly {
      DepthOnlyInSync(cur, c);
    } else {
      StagesInSync(cur, next, first, WantedValues(next, transp, pass, env.params), env, c);
    }
  }
}

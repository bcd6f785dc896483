/**
 * Values the renderer works on: the material of a group of vertex caches,
 * the vertex-cache entries themselves (every cache query is an input field),
 * the draw entries built from them, bounding boxes, and the abstract OpenGL
 * commands the renderer emits instead of calling OpenGL.
 */
module RenderTypes {
  import opened Wrappers
  import opened CacheKeys

  /** An axis-aligned box (`SbBox3f`); empty when some maximum is below its minimum. */
  datatype Box = Box(minX: real, minY: real, minZ: real, maxX: real, maxY: real, maxZ: real)

  /** The box `SbBox3f()` constructs: empty. */
  const EmptyBox := Box(1.0, 1.0, 1.0, -1.0, -1.0, -1.0)

  predicate IsEmpty(b: Box)
  {
    b.maxX < b.minX || b.maxY < b.minY || b.maxZ < b.minZ
  }

  function Min(x: real, y: real): real { if x <= y then x else y }
  function Max(x: real, y: real): real { if x <= y then y else x }

  /** `a.extendBy(b)`: ignores an empty `b`, adopts `b` when `a` is empty. */
  function Extend(a: Box, b: Box): Box
  {
    if IsEmpty(b) then a
    else if IsEmpty(a) then b
    else Box(Min(a.minX, b.minX), Min(a.minY, b.minY), Min(a.minZ, b.minZ),
             Max(a.maxX, b.maxX), Max(a.maxY, b.maxY), Max(a.maxZ, b.maxZ))
  }

  /** Every point of `inner` lies in `outer`. */
  predicate Contains(outer: Box, inner: Box)
  {
    IsEmpty(inner) ||
    (!IsEmpty(outer) &&
     outer.minX <= inner.minX && outer.minY <= inner.minY && outer.minZ <= inner.minZ &&
     inner.maxX <= outer.maxX && inner.maxY <= outer.maxY && inner.maxZ <= outer.maxZ)
  }

  /** Extending gives the least box containing both operands. */
  lemma {:induction false} ExtendIsLeastUpperBound(a: Box, b: Box, c: Box)
    ensures Contains(Extend(a, b), a) && Contains(Extend(a, b), b)
    ensures Contains(c, a) && Contains(c, b) ==> Contains(c, Extend(a, b))
  {
  }
  /** Extending a box by three others, skipping the empty ones, gives the smallest box holding all four. */
  lemma {:induction false} UnionOfFour(a: Box, b: Box, c: Box, d: Box)
    ensures var r := Extend(Extend(Extend(a, b), c), d);
      Contains(r, a) && Contains(r, b) && Contains(r, c) && Contains(r, d) &&
      forall o :: Contains(o, a) && Contains(o, b) && Contains(o, c) && Contains(o, d) ==> Contains(o, r)
  {
    var ab := Extend(a, b);
    var abc := Extend(ab, c);
    var r := Extend(abc, d);
    ExtendIsLeastUpperBound(a, b, ab);
    ExtendIsLeastUpperBound(ab, c, abc);
    ExtendIsLeastUpperBound(abc, d, r);
    forall o | Contains(o, a) && Contains(o, b) && Contains(o, c) && Contains(o, d)
      ensures Contains(o, r)
    {
      ExtendIsLeastUpperBound(a, b, o);
      ExtendIsLeastUpperBound(ab, c, o);
      ExtendIsLeastUpperBound(abc, d, o);
    }
  }


  datatype PrimType = Triangle | Line | Point
  datatype DrawStyle = Filled | Lines | Points | Invisible
  datatype DepthFunc = Never | Always | Less | LEqual | Equal | GEqual | Greater | NotEqual
  datatype LightModel = BaseColor | Phong
  datatype VertexOrdering = CW | CCW

  /** Bits of the material's override flag set; only the transparency flag is interpreted. */
  datatype OverrideFlag = FlagTransparency | FlagOther(bit: nat)

  /** One texture of a material: the texture unit and the texture node. */
  datatype TextureEntry = TextureEntry(unit: int, texture: nat)

  /** The FILLED, LINES and POINTS bits of a polygon-offset style. */
  datatype OffsetStyle = OffsetStyle(filled: bool, lines: bool, points: bool)

  /** The depth and lighting switches of a material. */
  datatype Switches = Switches(
    depthtest: bool,
    depthclamp: bool,
    depthwrite: bool,
    depthfunc: DepthFunc,
    lightmodel: LightModel)

  /** The colour, emission and blend flags of a material. */
  datatype Shading = Shading(diffuse: bv32, emissive: bv32, overrideflags: set<OverrideFlag>)

  /** The line and point settings of a material. */
  datatype Stroke = Stroke(linewidth: real, linepattern: bv32, pointsize: real)

  /** The polygon settings of a material. */
  datatype Surface = Surface(
    ambient: bv32,
    specular: bv32,
    shininess: real,
    vertexordering: VertexOrdering,
    twoside: int,
    culling: int,
    drawstyle: DrawStyle,
    polygonoffsetstyle: OffsetStyle,
    polygonoffsetfactor: real,
    polygonoffsetunits: real)

  /**
   * A render-cache material. The same record type holds the material a draw
   * entry asks for and the material currently applied to OpenGL. `id` stands
   * for the material's address, which the renderer compares to decide whether
   * the applied material has to be rechecked. The settings are grouped as
   * `applyMaterial` visits them.
   */
  datatype Material = Material(
    id: nat,
    kind: PrimType,
    onTop: bool,
    castsShadow: bool,
    hasLinePattern: bool,
    transptexture: bool,
    partialhighlight: bool,
    outline: bool,
    pervertexcolor: bool,
    clippers: seq<nat>,
    textures: seq<TextureEntry>,
    lights: seq<nat>,
    switches: Switches,
    shading: Shading,
    stroke: Stroke,
    surface: Surface)

  /**
   * A vertex-cache entry. Every query the renderer makes of the cache is a
   * field: its bounding box (already transformed by the entry's matrix), whether
   * it is the cache of the whole object, its node id, whether it has opaque or
   * transparent parts, and whether it has a normal array.
   */
  datatype VertexCacheEntry = VertexCacheEntry(
    key: CacheKeyPtr,
    partidx: int,
    isWholeCache: bool,
    nodeId: int,
    hasOpaqueParts: bool,
    hasTransparency: bool,
    hasNormals: bool,
    bbox: Box)

  /** The vertex caches of one material (one entry of a `VertexCacheMap`). */
  datatype CacheGroup = CacheGroup(material: Material, ventries: seq<VertexCacheEntry>)

  /** A selection: its id and the vertex-cache map it renders. */
  datatype Selection = Selection(id: int, caches: seq<CacheGroup>)

  /** A stored draw entry with its suppression counter. */
  datatype DrawEntry = DrawEntry(material: Material, ventry: VertexCacheEntry, skip: int)

  /** An index into a draw-entry list with the entry's distance to the view plane. */
  datatype DrawEntryIndex = DrawEntryIndex(idx: nat, distance: real)

  /** The three draw-entry lists of the renderer. */
  datatype DrawList = SceneList | SelectionList | HighlightList

  /** A normal of the view plane. */
  datatype Vec3 = Vec3(x: real, y: real, z: real)

  /** A plane: its normal and its distance from the origin along the normal. */
  datatype Plane = Plane(normal: Vec3, offset: real)

  function Center(b: Box): Vec3
  {
    Vec3((b.minX + b.maxX) / 2.0, (b.minY + b.maxY) / 2.0, (b.minZ + b.maxZ) / 2.0)
  }

  /** `SbPlane::getDistance`: the signed distance of a point from the plane. */
  function PlaneDistance(p: Plane, v: Vec3): real
  {
    p.normal.x * v.x + p.normal.y * v.y + p.normal.z * v.z - p.offset
  }

  /** Render passes: a line mode in the low two bits and a highlight bit. */
  const PassNormal: nat := 0
  const PassLineSolid: nat := 1
  const PassLinePattern: nat := 2
  const PassHighlight: nat := 4

  /** `pass & RenderPassLineMask`. */
  function LineMode(pass: nat): nat { pass % 4 }

  /** `pass & RenderPassHighlight` is set. */
  predicate IsHighlightPass(pass: nat) { (pass / 4) % 2 == 1 }

  datatype Cap =
    | DepthTest | DepthClamp | Lighting | LineStipple | CullFace | Blend | StencilTest
    | PolygonOffsetFill | PolygonOffsetLine | PolygonOffsetPoint | ClipPlane(plane: nat) | ColorMaterial

  datatype MaterialColor = Emission | Ambient | Specular
  datatype PolygonFill = FillPolygons | LinePolygons | PointPolygons

  /** The abstract OpenGL / Open Inventor command trace. */
  datatype GLCmd =
    | ResetState
    | RenderClipper(clipper: nat)
    | RenderTexture(unit: int, texture: nat)
    | RenderLight(light: nat)
    | Enable(cap: Cap)
    | Disable(cap: Cap)
    | DepthMask(write: bool)
    | SetDepthFunc(func: DepthFunc)
    | Color(rgba: bv32)
    | BlendColor(alpha: bv32)
    | BlendFunc(constantAlpha: bool)
    | SetMaterialColor(which: MaterialColor, rgb: bv32)
    | LineWidth(width: real)
    | LineStippleCmd(stippleFactor: bv32, pattern: bv32)
    | PointSize(size: real)
    | Shininess(shininess: real)
    | FrontFace(ordering: VertexOrdering)
    | TwoSide(on: bool)
    | PolygonMode(fill: PolygonFill)
    | PolygonOffset(offsetFactor: real, offsetUnits: real)
    | PushAttrib
    | PopAttrib
    | StencilPass(plane: nat)
    | CapFill(plane: nat)
    | DrawTriangles(list: DrawList, index: nat)
    | DrawLines(list: DrawList, index: nat)
    | DrawPoints(list: DrawList, index: nat)
    | ColorMask(on: bool)
    | SaveState
    | RestoreState
    | QueueDelayedPath

  /** The renderer's index lists. */
  datatype Bucket =
    | OpaqueVCache | TranspVCache | OpaqueOnTop | TranspOnTop | LinesOnTop | TrianglesOnTop
    | OpaqueHighlight | OpaqueLinesHighlight | TranspHighlight
    | OpaqueSelections | TranspSelections | TranspSelectionsOnTop
    | SelsTriangleOnTop | SelsOnTop | SelsLineOnTop | SelsPointOnTop

  /**
   * Settings read from the view parameters. The transparency used for on-top
   * line patterns is given already converted to the byte the source computes
   * from it. The three selection-id bits are bit positions, read from a header
   * that is not part of this model.
   */
  datatype ViewParams = ViewParams(
    noSectionOnTop: bool,
    sectionConcave: bool,
    sectionFill: bool,
    transparencyOnTopAlpha: bv32,
    selectionLinePattern: bv32,
    selectionLinePatternScale: int,
    selectionLineThicken: real,
    selectionLineMaxWidth: real,
    selectionPointScale: real,
    selectionPointMaxSize: real,
    hiddenLineHideFace: bool,
    hiddenLineHideVertex: bool,
    selIdSelectedBit: nat,
    selIdPartialBit: nat,
    selIdFullBit: nat)

  function Pow2(n: nat): (r: nat)
    ensures r >= 1
  {
    if n == 0 then 1 else 2 * Pow2(n - 1)
  }

  /** `id & (1 << bit)` is set, for the positive ids of on-top selections. */
  predicate HasBit(id: int, bit: nat)
  {
    id > 0 && (id / Pow2(bit)) % 2 == 1
  }

  /** The enum value the selection key records for a primitive type. */
  function PrimCode(t: PrimType): int
  {
    match t
    case Triangle => 0
    case Line => 1
    case Point => 2
  }
}

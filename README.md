# A verified model of four FreeCAD cores

This project models four parts of FreeCAD in Dafny and proves properties of the models.

- **The render-cache renderer** (`src/Gui/Inventor/SoFCRenderer.cpp`).
  The renderer keeps three lists of draw entries: the scene, the highlight and the selections.
  Index lists ("buckets") into them decide which draw loop draws an entry in which pass.
  It also keeps:
  - a table from cache keys to scene entries;
  - the highlight and selection key sets, which make the scene loops skip entries;
  - the OpenGL material between draw calls;
  - a registry of section hatch textures shared by all renderers.

  A frame (`render`) updates the selection and saves the OpenGL and Inventor state.
  It then runs the opaque and transparent loops over the buckets in a fixed order, which depends on the frame's flags, and restores the state.
  `applyMaterial` is modelled as a diff between the applied material and the requested one: it issues each command only when the setting changes.
  `renderSection` is modelled as the driver of the clip-plane passes.
- **The parameter tree** (`src/Base/Parameter.cpp`).
  Parameter groups hold typed parameters and sub-groups.
  The model covers:
  - group lookup by '/'-separated path, and a group's path;
  - the getters and setters for boolean, integer, unsigned and text values, with the text forms they store;
  - removal, `Clear`, `RemoveGrp` and `RenameGrp`;
  - `revert`, `copyTo` and `insertTo`;
  - the `ParameterLock` table that `FindOrCreateElement` consults.
- **PartDesign transformation features** (`src/Mod/PartDesign/App/FeatureTransformed.cpp`).
  The model covers:
  - the base-object lookup;
  - the filtering and history ordering of the originals;
  - the collection of the shapes to transform, without duplicates;
  - the compaction and encoding of the `AddSubShape` property;
  - `divideTools`;
  - the synchronisation of `Originals` with `OriginalSubs`.
- **The export list of a geo-feature group's view provider** (`src/Gui/ViewProviderGeoFeatureGroupExtension.cpp`).
  The model covers `filterLinksByScope`, `buildExport` and the list update of `extensionReplaceObject`.

Abstractions used throughout:

- A state-changing object is a class whose methods are proved against functions on values, for example the renderer, the lock table, the parameter manager, the transformation feature's links and the group view.
- The renderer's OpenGL and Inventor calls are an abstract command trace (`trace`), plus a log of the geometry sent (`draws`).
- A ghost log (`visits`) records which draw loop a frame calls, in which order.
- Vertex caches, shapes and document objects are values whose queries are fields.
- Pointers are numbers or keys compared by value.

## Model

| member | source | states |
|---|---|---|
| CacheKeys.KeyLessIrreflexive | src/Gui/Inventor/SoFCRenderer.cpp:121-130 | no cache key is ordered before itself (equal pointers compare false) |
| CacheKeys.KeyLessAsymmetric | src/Gui/Inventor/SoFCRenderer.cpp:121-130 | two keys are never each ordered before the other |
| CacheKeys.KeyLessTransitive | src/Gui/Inventor/SoFCRenderer.cpp:121-130 | the order is transitive across null keys, shorter-first by size, then lexicographic |
| CacheKeys.KeyLessTotal | src/Gui/Inventor/SoFCRenderer.cpp:121-132 | two different keys are always ordered one way, so a `CacheKeySet` holds one entry per key value |
| CacheKeys.LexLessTransitive | src/Gui/Inventor/SoFCRenderer.cpp:128 | the element-wise vector comparison used for keys of equal size is transitive |
| CacheKeys.LexLessTotal | src/Gui/Inventor/SoFCRenderer.cpp:128 | two different vectors of the same kind are always ordered one way |
| RenderTypes.ExtendIsLeastUpperBound | src/Gui/Inventor/SoFCRenderer.cpp:840 | `extendBy` gives a box holding both boxes, and the smallest such box |
| RenderTypes.UnionOfFour | src/Gui/Inventor/SoFCRenderer.cpp:1080-1089 | extending by the scene, highlight and selection boxes gives the smallest box holding all of them and the caller's box |
| SelMaps.Put | src/Gui/Inventor/SoFCRenderer.cpp:932-939 | `sels[id] = &caches`: the map stays ordered by id, the id's old selection is replaced, all others are kept, and the size grows only for a new id |
| SelMaps.Erase | src/Gui/Inventor/SoFCRenderer.cpp:942-950 | `erase(id)`: the map stays ordered, exactly the selection with that id goes, and the size drops by one exactly when the id was present |
| SelMaps.EraseAfterPut | src/Gui/Inventor/SoFCRenderer.cpp:932-950 | adding a selection and then removing its id leaves the map as removing the id alone would |
| SelMaps.PutPresent | src/Gui/Inventor/SoFCRenderer.cpp:932-939 | adding a selection already stored under its id changes nothing |
| SelMaps.AscendingUnique | src/Gui/Inventor/SoFCRenderer.cpp:932-950 | an id-ordered map is fixed by its contents, so map equality is content equality |
| Sorting.SortByKey | src/Gui/Inventor/SoFCRenderer.cpp:1612-1626 | the records end sorted by distance and are a permutation of the input |
| Hatch.Registered | src/Gui/Inventor/SoFCRenderer.cpp:319 | `_HatchTextures[dataptr]` adds a default entry only when the address is missing and leaves every other entry as it was |
| Hatch.ReleaseValid | src/Gui/Inventor/SoFCRenderer.cpp:301-309 | releasing keeps the registry consistent (each entry's reference count is its number of holders), detaches only this renderer, and the entry dies exactly when this renderer was its last holder |
| Hatch.SetImageValid | src/Gui/Inventor/SoFCRenderer.cpp:312-333 | after `setHatchImage` the registry is consistent, a null image detaches the renderer, otherwise it holds the entry of the address, a new entry holds a copy of the first `nc*width*height` bytes, and no other renderer is affected |
| Hatch.SetImageMoves | src/Gui/Inventor/SoFCRenderer.cpp:318-332 | the case that moves the renderer to another entry: old reference released, new one taken, image copied when the entry is new |
| Hatch.AttachValid | src/Gui/Inventor/SoFCRenderer.cpp:324-332 | taking a reference on an entry restores consistency and copies the image only when the count first becomes one |
| Hatch.HatchRegistry.constructor | src/Gui/Inventor/SoFCRenderer.cpp:287 | the registry starts empty and consistent |
| Hatch.HatchRegistry.Release | src/Gui/Inventor/SoFCRenderer.cpp:294-309 | `deleteHatchTexture` (also the destructor) changes the registry as `AfterRelease` says and keeps it consistent |
| Hatch.HatchRegistry.SetHatchImage | src/Gui/Inventor/SoFCRenderer.cpp:312-333 | changes the registry as `AfterSetImage` says and keeps it consistent |
| Hatch.HatchRegistry.AttachImage | src/Gui/Inventor/SoFCRenderer.cpp:324-332 | the reference `setHatchImage` takes after releasing the old one |
| Hatch.ReleaseAsWrittenDangles | src/Gui/Inventor/SoFCRenderer.cpp:301-309 | with the code as written, releasing twice erases a shared entry and deletes its texture while another renderer still points at it |
| Classify.WhereSpec | src/Gui/Inventor/SoFCRenderer.cpp:843-863 | a bucket lists exactly the positions whose entry meets its rule, each once, in increasing order |
| Classify.KeptEntriesSpec | src/Gui/Inventor/SoFCRenderer.cpp:796-806 | the entries pushed for one material are exactly its caches with a non-empty box, each with a zero counter |
| Classify.MapEntriesSpec | src/Gui/Inventor/SoFCRenderer.cpp:825-839 | a stored entry comes from a group that is non-empty and not invisible, has a non-empty box and a zero counter; every such cache is stored |
| Classify.HighlightKeysSpec | src/Gui/Inventor/SoFCRenderer.cpp:894-902 | the highlight keys are exactly the keys of on-top entries that are partial highlights or whole-object caches |
| Classify.BoxOfContains | src/Gui/Inventor/SoFCRenderer.cpp:840 | the union box contains the box of every entry it was built from |
| Classify.CacheTableSpec | src/Gui/Inventor/SoFCRenderer.cpp:841 | the key table lists, under each key, exactly the positions of the entries with that key |
| Classify.TableConsistentSameKeys | src/Gui/Inventor/SoFCRenderer.cpp:765-772 | changing the counters does not invalidate the key table |
| Classify.BumpedRoundTrip | src/Gui/Inventor/SoFCRenderer.cpp:765-779 | applying a key set with `skip` and then with `-skip` restores every counter |
| Classify.BumpedAddKey | src/Gui/Inventor/SoFCRenderer.cpp:765-779 | one more key in an applied set adds `skip` to exactly the entries that key lists |
| Classify.CheckKeyKeys | src/Gui/Inventor/SoFCRenderer.cpp:978-1010 | one `checkKey` step keeps `selectionkeys` and `renderkeys` equal to the keys of the kept entries |
| Classify.CheckKeyDistinct | src/Gui/Inventor/SoFCRenderer.cpp:984-1007 | one `checkKey` step keeps the kept whole-object entries pairwise distinct in key, node and type |
| Classify.CheckKeysSpec | src/Gui/Inventor/SoFCRenderer.cpp:978-1076 | after all candidates, `selectionkeys` holds exactly the keys of kept whole-object entries, no two of them share key, node and type, and only candidates are kept |
| Classify.CheckKeyDrops | src/Gui/Inventor/SoFCRenderer.cpp:978-1010 | a candidate is dropped exactly when it is a whole-object entry whose key, node and type were kept before; otherwise it is appended |
| Classify.SelKeyPrefix | src/Gui/Inventor/SoFCRenderer.cpp:984-991 | equal selection keys imply equal cache keys, since the key is a prefix of `selkey` |
| DrawLists.PushDrawEntry | src/Gui/Inventor/SoFCRenderer.cpp:796-806 | the result is 0 exactly when the box is empty, and then the entries are unchanged; otherwise the entry is appended and the new size returned |
| DrawLists.BumpedUnion | src/Gui/Inventor/SoFCRenderer.cpp:765-779 | applying one more key after a key set is the same as applying the union |
| DrawLists.BumpedKeepsTable | src/Gui/Inventor/SoFCRenderer.cpp:765-779 | applying keys keeps the key table consistent with the entries |
| DrawLists.AccountedRemoveHighlight | src/Gui/Inventor/SoFCRenderer.cpp:788 | taking the highlight keys back leaves only the selection keys counted |
| DrawLists.AccountedAddHighlight | src/Gui/Inventor/SoFCRenderer.cpp:928 | applying a new highlight key set counts it |
| DrawLists.AccountedRemoveSelection | src/Gui/Inventor/SoFCRenderer.cpp:971 | taking the selection keys back leaves only the highlight keys counted |
| DrawLists.AccountedAddSelectionKey | src/Gui/Inventor/SoFCRenderer.cpp:993-995 | applying one more selection key counts it |
| DrawLists.AccountedFresh | src/Gui/Inventor/SoFCRenderer.cpp:866 | fresh entries with the highlight keys applied count exactly the highlight keys |
| DrawLists.SceneOfClassified | src/Gui/Inventor/SoFCRenderer.cpp:825-863 | storing entries one by one builds the scene the classification rules describe: table, box and every bucket |
| DrawLists.SceneOfIndexed | src/Gui/Inventor/SoFCRenderer.cpp:843-863 | every scene bucket points at stored entries |
| DrawLists.FreshSceneValid | src/Gui/Inventor/SoFCRenderer.cpp:809-869 | a scene just built, with the highlight keys applied, is indexed and counted |
| DrawLists.MapEntriesFresh | src/Gui/Inventor/SoFCRenderer.cpp:141-142 | the entries of a vertex-cache map start with zero counters |
| DrawLists.CountedRemoveHighlight | src/Gui/Inventor/SoFCRenderer.cpp:782-793 | removing the highlight counts leaves a scene counted for the selection keys alone |
| DrawLists.CountedAddHighlight | src/Gui/Inventor/SoFCRenderer.cpp:928 | applying a highlight key set to a scene counted without one counts it |
| DrawLists.SkippedIffHidden | src/Gui/Inventor/SoFCRenderer.cpp:1507-1511 | while the key table is in use, an entry's counter is zero exactly when no highlight or selection key hides it, and it never exceeds 2 |
| DrawLists.HighlightOfClassified | src/Gui/Inventor/SoFCRenderer.cpp:880-925 | storing highlight entries one by one builds the keys, the box and the buckets the rules describe |
| DrawLists.HighlightOfIndexed | src/Gui/Inventor/SoFCRenderer.cpp:904-925 | every highlight bucket points at stored highlight entries |
| DrawLists.AccountedAddSelection | src/Gui/Inventor/SoFCRenderer.cpp:978-1010 | applying a set of new selection keys counts them |
| DrawLists.CountedAddSelection | src/Gui/Inventor/SoFCRenderer.cpp:978-1010 | applying the new selection keys to a scene counted without any counts it for those keys |
| DrawLists.CountedRemoveSelection | src/Gui/Inventor/SoFCRenderer.cpp:971-972 | taking the selection counts off leaves a scene counted for the highlight keys alone |
| DrawLists.OnTopTriangleFiled | src/Gui/Inventor/SoFCRenderer.cpp:1025-1029 | an on-top triangle goes to the transparent on-top bucket, and also to the triangle bucket unless it is selected whole and not a partial highlight |
| DrawLists.OnTopEdgeFiled | src/Gui/Inventor/SoFCRenderer.cpp:1030-1045 | an on-top line or point goes to exactly one bucket, chosen by the partial and full bits of its id |
| DrawLists.OtherFiled | src/Gui/Inventor/SoFCRenderer.cpp:1063-1073 | a candidate of the other map goes to the opaque and transparent buckets by the scene's rules |
| DrawLists.SelectionOfClassified | src/Gui/Inventor/SoFCRenderer.cpp:1012-1076 | storing kept candidates one by one builds the entries, box and buckets the rules describe |
| DrawLists.StoreClassified | src/Gui/Inventor/SoFCRenderer.cpp:1012-1076 | storing one more kept candidate extends the classified selection by it |
| DrawLists.SelectionOfIndexed | src/Gui/Inventor/SoFCRenderer.cpp:1012-1076 | every selection bucket points at stored selection entries |
| DrawLists.CandidateChecked | src/Gui/Inventor/SoFCRenderer.cpp:978-1010 | one `checkKey` call keeps `updateSelection`'s loop invariant: the selection list gains the candidate exactly when the step keeps it |
| DrawLists.SelectingStart | src/Gui/Inventor/SoFCRenderer.cpp:955-973 | after the resets, with no candidate seen, the loop invariant holds |
| DrawLists.ClearedValid | src/Gui/Inventor/SoFCRenderer.cpp:733-762 | lists whose buckets, keys, key table and selection maps are all empty satisfy the renderer's invariant |
| DrawLists.BucketIndices | src/Gui/Inventor/SoFCRenderer.cpp:222-228 | in valid lists each index of a plain bucket names an entry of its list |
| DrawLists.BucketRecords | src/Gui/Inventor/SoFCRenderer.cpp:231-233 | in valid lists each record of a record bucket names an entry of its list |
| DrawLists.WithRecords | src/Gui/Inventor/SoFCRenderer.cpp:1612-1626 | replacing one record bucket changes that bucket and nothing else in the lists |
| DrawLists.UnsortIndexed | src/Gui/Inventor/SoFCRenderer.cpp:1612-1626 | lists that differ only in the order and distances of their records are indexed alike |
| DrawLists.UnsortValid | src/Gui/Inventor/SoFCRenderer.cpp:1612-1626 | lists that differ only in record order and distances keep the renderer's invariant alike |
| DrawLists.SortedUnsort | src/Gui/Inventor/SoFCRenderer.cpp:1612-1626 | re-measuring and sorting a record bucket loses nothing that the order-free view keeps |
| MaterialDiff.OnTopColour | src/Gui/Inventor/SoFCRenderer.cpp:483-498 | the line-pattern pass keeps the colour's RGB bytes and lowers its alpha byte to the on-top transparency only when that is smaller |
| MaterialDiff.HighlightWidth | src/Gui/Inventor/SoFCRenderer.cpp:505-514 | a highlighted line is never thinner than the requested width and no wider than the configured maximum (or its own width) |
| MaterialDiff.HighlightPointSize | src/Gui/Inventor/SoFCRenderer.cpp:515-521 | a highlighted point is never smaller than the requested size and no larger than the configured maximum (or its own size) |
| MaterialDiff.HighlightGrows | src/Gui/Inventor/SoFCRenderer.cpp:505-521 | a size scaled by at least 1 and capped never drops below the unscaled size nor exceeds the cap or the size itself |
| MaterialDiff.WantedValues | src/Gui/Inventor/SoFCRenderer.cpp:473-521 | per pass: on-top entries skip the depth test except in the solid-line pass; transparent entries not on top never write depth; the solid-line pass tests with `GL_LEQUAL` without writing; the pattern pass tests nothing, forces blending and lowers the alpha; other passes keep the requested colour, flags and stipple |
| MaterialDiff.TextureCmdsSpec | src/Gui/Inventor/SoFCRenderer.cpp:440-454 | exactly the textures of the new material that their unit does not already hold are rendered |
| MaterialDiff.DepthWriteOnly | src/Gui/Inventor/SoFCRenderer.cpp:375-409 | depth-write-only mode ends with no texture, base colour, depth write on, `GL_LESS` and depth test on, and issues nothing when already there |
| MaterialDiff.Resources | src/Gui/Inventor/SoFCRenderer.cpp:411-471 | clippers, textures and lights are re-rendered, after a state reset, exactly when one of them changed (or no material was applied yet) |
| MaterialDiff.ResourcesState | src/Gui/Inventor/SoFCRenderer.cpp:411-471 | after the resources the material carries the kept clippers and, for triangles, the requested lights and textures (unless textures are off); nothing else but the per-vertex-colour flag changes |
| MaterialDiff.SwitchCmds | src/Gui/Inventor/SoFCRenderer.cpp:523-569 | the depth and lighting switches issue nothing when unchanged and all five settings for the first material |
| MaterialDiff.ShadingCmds | src/Gui/Inventor/SoFCRenderer.cpp:571-617 | the colour is always issued first; nothing else when blending and emission are unchanged |
| MaterialDiff.LineCmds | src/Gui/Inventor/SoFCRenderer.cpp:619-636 | line width and stipple issue nothing when unchanged |
| MaterialDiff.PointCmds | src/Gui/Inventor/SoFCRenderer.cpp:640-648 | point size issues nothing when unchanged |
| MaterialDiff.LookCmds | src/Gui/Inventor/SoFCRenderer.cpp:650-679 | ambient, specular, shininess, front face and two-sided lighting issue nothing when unchanged |
| MaterialDiff.CullCmds | src/Gui/Inventor/SoFCRenderer.cpp:681-703 | culling and polygon mode issue nothing when unchanged |
| MaterialDiff.PolygonOffsetCmds | src/Gui/Inventor/SoFCRenderer.cpp:705-728 | polygon offset styles, factor and units issue nothing when unchanged |
| MaterialDiff.SurfaceCmds | src/Gui/Inventor/SoFCRenderer.cpp:650-728 | the surface stage issues nothing when the surface is unchanged |
| MaterialDiff.StageCmds | src/Gui/Inventor/SoFCRenderer.cpp:523-728 | moving a material to itself issues only the colour |
| MaterialDiff.ApplyConforms | src/Gui/Inventor/SoFCRenderer.cpp:360-730 | `applyMaterial` refuses exactly when shadow mapping refuses the entry, and then changes nothing; in depth-write-only mode it only enters that mode; otherwise the new state matches the request and the pass |
| MaterialDiff.ResourcesSettled | src/Gui/Inventor/SoFCRenderer.cpp:411-471 | resources already in place are left alone |
| MaterialDiff.TargetSettled | src/Gui/Inventor/SoFCRenderer.cpp:473-728 | the state an apply aims at is its own aim |
| MaterialDiff.ApplyIdempotent | src/Gui/Inventor/SoFCRenderer.cpp:360-730 | applying the same material again to the state it produced keeps the state and issues only the colour (nothing when refused or depth-write-only) |
| MaterialDiff.FeatureCmdsReach | src/Gui/Inventor/SoFCRenderer.cpp:348-355 | `setGLFeature` toggles its capability exactly when the style changes it, to the new value |
| MaterialDiff.OffsetCmdsEmpty | src/Gui/Inventor/SoFCRenderer.cpp:705-719 | the polygon offset styles issue nothing exactly when unchanged |
| MaterialDiff.OffsetCmdsReach | src/Gui/Inventor/SoFCRenderer.cpp:705-719 | after the offset commands each offset capability is as the new style says, and no other capability moves |
| MaterialDiff.StippleCmdsReach | src/Gui/Inventor/SoFCRenderer.cpp:626-636 | the stipple commands set `GL_LINE_STIPPLE` as the pattern says and nothing else |
| MaterialDiff.TexturesInert | src/Gui/Inventor/SoFCRenderer.cpp:440-454 | texture commands toggle no capability |
| MaterialDiff.ResourcesInert | src/Gui/Inventor/SoFCRenderer.cpp:411-471 | resource commands toggle no capability |
| MaterialDiff.DepthWriteOnlyTracks | src/Gui/Inventor/SoFCRenderer.cpp:375-409 | depth-write-only mode switches lighting off and depth testing on, and no other capability |
| MaterialDiff.SwitchCmdsTrack | src/Gui/Inventor/SoFCRenderer.cpp:523-569 | the switches set depth test, depth clamp and lighting as the target says, and no other capability |
| MaterialDiff.ShadingCmdsInert | src/Gui/Inventor/SoFCRenderer.cpp:571-617 | colour, blending function and emission toggle no capability |
| MaterialDiff.StrokeCmdsTrack | src/Gui/Inventor/SoFCRenderer.cpp:619-648 | the stroke commands set stippling as the target pattern says, and no other capability |
| MaterialDiff.LookCmdsInert | src/Gui/Inventor/SoFCRenderer.cpp:650-679 | the look commands toggle no capability |
| MaterialDiff.CullCmdsTrack | src/Gui/Inventor/SoFCRenderer.cpp:681-703 | culling is set as the target says, nothing else |
| MaterialDiff.PolygonOffsetCmdsTrack | src/Gui/Inventor/SoFCRenderer.cpp:705-728 | the offset capabilities are set as the target says, nothing else |
| MaterialDiff.RasterCmdsTrack | src/Gui/Inventor/SoFCRenderer.cpp:681-728 | culling and the offsets are set as the target says, nothing else |
| MaterialDiff.SurfaceCmdsTrack | src/Gui/Inventor/SoFCRenderer.cpp:650-728 | the surface stage sets culling and the offsets as the target says, nothing else |
| MaterialDiff.StageCmdsTrack | src/Gui/Inventor/SoFCRenderer.cpp:523-728 | the stages move every capability the material records from the old setting to the new |
| MaterialDiff.DepthOnlyInSync | src/Gui/Inventor/SoFCRenderer.cpp:375-409 | entering depth-write-only mode keeps OpenGL's capabilities in step with the recorded material |
| MaterialDiff.StagesInSync | src/Gui/Inventor/SoFCRenderer.cpp:411-728 | the resources and the stages keep the capabilities in step with the recorded material |
| MaterialDiff.ApplyKeepsCapsInSync | src/Gui/Inventor/SoFCRenderer.cpp:360-730 | if OpenGL's capabilities agreed with the applied material before the call, they agree with the new one after its commands: each toggle is issued exactly when needed |
| Section.UntouchedPlanes | src/Gui/Inventor/SoFCRenderer.cpp:1254-1491 | clip planes from `numclip` up are never touched by a section pass, so they keep their state |
| Section.SelectPlanesSpec | src/Gui/Inventor/SoFCRenderer.cpp:1303-1309 | selecting plane `k` leaves exactly `k` enabled below `numclip`, fills nothing, and touches no higher plane |
| Section.EnableOthersSpec | src/Gui/Inventor/SoFCRenderer.cpp:1334-1339 | the convex fill re-enables every plane but `k` below `numclip` and disables none |
| Section.EnablePlanesSpec | src/Gui/Inventor/SoFCRenderer.cpp:1475-1480 | after the first convex call all planes below `numclip` are enabled |
| Section.DisableFromOneSpec | src/Gui/Inventor/SoFCRenderer.cpp:1277-1279 | the first concave line pass disables planes 1 to `numclip - 1` and leaves plane 0 |
| Section.StencilSetup | src/Gui/Inventor/SoFCRenderer.cpp:1286-1301 | the attribute push, the concave fix-ups and the stencil switch-on fill nothing and touch no clip plane |
| Section.FillCmdsSpec | src/Gui/Inventor/SoFCRenderer.cpp:1286-1470 | the stencil pass of plane `k` fills exactly that plane's section and touches no plane from `numclip` up |
| Section.ConvexChain | src/Gui/Inventor/SoFCRenderer.cpp:1473-1474 | the recursive chain of convex fills from plane `k` fills planes `k` to `numclip - 1` in order and leaves `pass` at `numclip + 1` |
| Section.ConvexFirst | src/Gui/Inventor/SoFCRenderer.cpp:1286-1480 | the first convex call fills every plane's section in order, returns true, leaves `pass` past the last plane and all planes below `numclip` enabled |
| Section.ConvexFirstFills | src/Gui/Inventor/SoFCRenderer.cpp:1473-1480 | the first fill followed by the recursive chain fills planes 0 to `numclip - 1` |
| Section.ConvexFirstPlanes | src/Gui/Inventor/SoFCRenderer.cpp:1475-1480 | whatever the fills did below `numclip`, the final enable loop leaves all those planes on |
| Section.ConcaveStep | src/Gui/Inventor/SoFCRenderer.cpp:1270-1309 | a concave pass `k` returns true, advances `pass` by one and leaves exactly plane `k` enabled below `numclip`; triangles fill plane `k` first |
| Section.ConcaveFillStep | src/Gui/Inventor/SoFCRenderer.cpp:1481-1489 | a concave triangle pass fills plane `k` and ends with only plane `k` enabled below `numclip` |
| Section.ConcaveLineStep | src/Gui/Inventor/SoFCRenderer.cpp:1270-1284 | a concave line or point pass fills nothing and ends with only plane `k` enabled, given the previous pass left only `k - 1` |
| Section.LineCmdsSpec | src/Gui/Inventor/SoFCRenderer.cpp:1273-1283 | the commands of a concave line pass fill nothing and switch from plane `k - 1` (or all but 0) to plane `k` |
| Section.SectionPastEnd | src/Gui/Inventor/SoFCRenderer.cpp:1264-1268 | a call past the last plane returns false and emits nothing |
| Section.PlainOnce | src/Gui/Inventor/SoFCRenderer.cpp:1264-1272 | with no concave passes and no convex triangle fill the first call returns true and emits nothing, and the second returns false |
| Section.LoopExit | src/Gui/Inventor/SoFCRenderer.cpp:1540-1580 | when the drawing loop stops, it drew once per section call expected and filled every plane's section exactly when sections are filled |
| Section.EmitSelectPlanes | src/Gui/Inventor/SoFCRenderer.cpp:1303-1309 | the loop issues the selection commands `SelectPlanes` describes |
| Section.EmitEnableOthers | src/Gui/Inventor/SoFCRenderer.cpp:1334-1339 | the loop issues the commands `EnableOthers` describes |
| Section.EmitEnablePlanes | src/Gui/Inventor/SoFCRenderer.cpp:1476-1478 | the loop issues the commands `EnablePlanes` describes |
| Section.EmitDisableFromOne | src/Gui/Inventor/SoFCRenderer.cpp:1278-1279 | the loop issues the commands `DisableFromOne` describes |
| Section.EmitStencilSetup | src/Gui/Inventor/SoFCRenderer.cpp:1286-1301 | issues the set-up commands `StencilSetup` describes |
| Section.EmitFill | src/Gui/Inventor/SoFCRenderer.cpp:1303-1470 | issues the stencil pass and fill `FillCmds` describes |
| Section.EmitLine | src/Gui/Inventor/SoFCRenderer.cpp:1270-1284 | issues the concave line pass `LineCmds` describes |
| Section.RenderSection | src/Gui/Inventor/SoFCRenderer.cpp:1254-1491 | one `renderSection` call, with its recursion, computes the step the model of the function describes |
| Section.SectionPasses | src/Gui/Inventor/SoFCRenderer.cpp:1540-1580 | the `while (renderSection(...))` loop draws once per expected call with exactly the planes each pass should have enabled, fills each plane's section exactly when sections are filled, and pushes the attributes exactly when a pass needs them |
| RenderPasses.OpaqueEntry | src/Gui/Inventor/SoFCRenderer.cpp:1507-1580 | one iteration of the `renderOpaque` loop only adds commands; it draws the entry's geometry exactly when the entry is not skipped and its material is not refused; a skipped entry leaves the state as it was; an apply records the material and pass and clears the recheck flag |
| RenderPasses.OpaqueRun | src/Gui/Inventor/SoFCRenderer.cpp:1503-1583 | the opaque loop only ever appends commands and draws |
| RenderPasses.OpaqueRunDraws | src/Gui/Inventor/SoFCRenderer.cpp:1503-1583 | outside shadow mapping the opaque loop sends the geometry of every entry it does not skip, in list order, whatever material was applied before |
| RenderPasses.OpaqueEntryInSync | src/Gui/Inventor/SoFCRenderer.cpp:1512-1536 | applying a material and drawing one opaque entry keep the recorded material in step with OpenGL's capabilities |
| RenderPasses.OpaqueRunInSync | src/Gui/Inventor/SoFCRenderer.cpp:1503-1583 | the whole opaque loop keeps the recorded material in step with OpenGL |
| RenderPasses.DrawOpaqueInSync | src/Gui/Inventor/SoFCRenderer.cpp:1529-1580 | drawing an opaque entry (normals, sections, geometry) keeps the record in step |
| RenderPasses.AfterOpaqueApplyInSync | src/Gui/Inventor/SoFCRenderer.cpp:1512-1536 | a successful apply in the opaque loop keeps the record in step |
| RenderPasses.BaseColoredInSync | src/Gui/Inventor/SoFCRenderer.cpp:1529-1536 | switching lighting off by hand for entries without normals keeps the record in step |
| RenderPasses.TranspEntry | src/Gui/Inventor/SoFCRenderer.cpp:1636-1702 | one iteration of `renderTransparency` only adds commands; it draws exactly when the entry is not skipped and not refused, leaves the pass alone, and an apply records the material and clears the recheck flag |
| RenderPasses.TranspRun | src/Gui/Inventor/SoFCRenderer.cpp:1632-1703 | the transparency loop only ever appends commands and draws |
| RenderPasses.TranspRunDraws | src/Gui/Inventor/SoFCRenderer.cpp:1632-1703 | outside shadow mapping the transparency loop sends every unskipped entry, in record order |
| RenderPasses.TranspEntryInSync | src/Gui/Inventor/SoFCRenderer.cpp:1636-1702 | one transparent entry keeps the record in step with OpenGL |
| RenderPasses.TranspRunInSync | src/Gui/Inventor/SoFCRenderer.cpp:1632-1703 | the transparency loop keeps the record in step |
| RenderPasses.DrawTranspInSync | src/Gui/Inventor/SoFCRenderer.cpp:1652-1702 | drawing a transparent entry, with its lighting override, keeps the record in step |
| RenderPasses.AfterTranspApplyInSync | src/Gui/Inventor/SoFCRenderer.cpp:1636-1643 | a successful apply in the transparency loop keeps the record in step |
| RenderPasses.OpaqueEntrySkips | src/Gui/Inventor/SoFCRenderer.cpp:1507-1520 | an entry that is skipped, or whose material is refused, leaves the state alone |
| RenderPasses.OpaqueEntryApplies | src/Gui/Inventor/SoFCRenderer.cpp:1512-1520 | an entry whose material must be applied is drawn from the state `applyMaterial` leaves |
| RenderPasses.OpaqueEntryKeeps | src/Gui/Inventor/SoFCRenderer.cpp:1512-1520 | an entry with the same material, the same pass and no recheck is drawn on the current state |
| RenderPasses.TranspEntrySkips | src/Gui/Inventor/SoFCRenderer.cpp:1636-1643 | a skipped or refused transparent entry leaves the state alone |
| RenderPasses.TranspEntryApplies | src/Gui/Inventor/SoFCRenderer.cpp:1636-1643 | a transparent entry whose material must be applied is drawn from the state `applyMaterial` leaves |
| RenderPasses.TranspEntryKeeps | src/Gui/Inventor/SoFCRenderer.cpp:1636-1643 | a transparent entry with the same material and no recheck is drawn on the current state |
| RenderPasses.BlendedRun | src/Gui/Inventor/SoFCRenderer.cpp:1628-1709 | the transparency loop starts by enabling source-alpha blending and ends by disabling it |
| RenderPasses.BlendedRunIs | src/Gui/Inventor/SoFCRenderer.cpp:1628-1709 | the blended run is the loop between the blend switch-on and switch-off |
| RenderPasses.OnTopPlanParts | src/Gui/Inventor/SoFCRenderer.cpp:1798-1938 | what `render` draws after the scene is the early on-top part, the styled lines, the late highlight and the on-top points, in that order |
| RenderPasses.PlanInParts | src/Gui/Inventor/SoFCRenderer.cpp:1743-1938 | the scene part followed by the rest of the frame gives the frame's whole plan |
| RenderPasses.LinePassesOfLines | src/Gui/Inventor/SoFCRenderer.cpp:1859-1884 | the line passes draw the on-top scene lines exactly once |
| RenderPasses.SolidPassesOfLines | src/Gui/Inventor/SoFCRenderer.cpp:1886-1914 | the second pass draws the on-top scene lines solid only when there are on-top triangles and lines |
| RenderPasses.OnTopLinePasses | src/Gui/Inventor/SoFCRenderer.cpp:1859-1914 | a frame that does not exit early draws on-top scene lines once in the normal pass, or, with line styling, first with the pattern and then solid when on-top triangles would hide them |
| RenderPasses.OnTopPlanLines | src/Gui/Inventor/SoFCRenderer.cpp:1798-1938 | after the scene only the line passes and the second pass draw on-top scene lines |
| RenderPasses.OthersAvoidLines | src/Gui/Inventor/SoFCRenderer.cpp:1743-1938 | the scene, the early on-top part, the prepass, the late highlight and the points never draw the on-top scene lines |
| RenderPasses.DepthOnlyVisits | src/Gui/Inventor/SoFCRenderer.cpp:1822-1854 | the only depth-only visits of a frame are those of the prepass, which happens only with line styling on |
| RenderPasses.OthersDrawing | src/Gui/Inventor/SoFCRenderer.cpp:1743-1938 | every part of a frame except the prepass draws colour |
| Renderer.Renderer.constructor | src/Gui/Inventor/SoFCRenderer.cpp:180-292 | a new renderer has empty lists, maps and keys, no pending selection update, no shadow flags, and satisfies the invariant |
| Renderer.Renderer.ApplyKey | src/Gui/Inventor/SoFCRenderer.cpp:765-772 | `applyKey` adds the amount to the counter of exactly the entries the table lists under the key (none for a missing key), changes nothing else, and keeps the table consistent |
| Renderer.Renderer.ApplyKeys | src/Gui/Inventor/SoFCRenderer.cpp:775-779 | `applyKeys` applies every key of the set once: each counter changes by the amount times the number of keys of the set that list the entry |
| Renderer.Renderer.FileScene | src/Gui/Inventor/SoFCRenderer.cpp:840-863 | a stored entry extends the box, is recorded in the key table, and goes to the on-top triangle, opaque and transparent buckets by the classification rules |
| Renderer.Renderer.ScenePush | src/Gui/Inventor/SoFCRenderer.cpp:835-863 | one inner iteration of `setScene` stores the cache exactly when its box is not empty |
| Renderer.Renderer.PushGroup | src/Gui/Inventor/SoFCRenderer.cpp:835-864 | the inner loop of `setScene` stores the non-empty caches of one material in order |
| Renderer.Renderer.SceneGroup | src/Gui/Inventor/SoFCRenderer.cpp:825-864 | a material with no caches or an invisible draw style stores nothing |
| Renderer.Renderer.BuildScene | src/Gui/Inventor/SoFCRenderer.cpp:825-865 | the loops of `setScene` build from an empty scene the scene of the map's entries |
| Renderer.Renderer.RebuildScene | src/Gui/Inventor/SoFCRenderer.cpp:811-866 | the scene part of `setScene` yields the fresh scene with the highlight keys applied: indexed, and counted for the highlight keys alone |
| Renderer.Renderer.SetScene | src/Gui/Inventor/SoFCRenderer.cpp:809-869 | `setScene` rebuilds the scene from the map, re-applies the highlight keys, forgets the selection keys, resets the stored plane, asks for a selection update, and keeps the invariant |
| Renderer.Renderer.ClearHighlight | src/Gui/Inventor/SoFCRenderer.cpp:782-793 | `clearHighlight` empties the highlight list, buckets, keys and caches, takes the old highlight keys' counts off the scene, and keeps the invariant |
| Renderer.Renderer.FileHighlight | src/Gui/Inventor/SoFCRenderer.cpp:894-925 | a stored highlight entry hides its object when it is on top and a partial highlight or a whole-object cache, and goes to the highlight buckets by the override and transparency rules |
| Renderer.Renderer.HighlightPush | src/Gui/Inventor/SoFCRenderer.cpp:888-925 | one inner iteration of `setHighlight` stores the cache exactly when its box is not empty |
| Renderer.Renderer.HighlightPushGroup | src/Gui/Inventor/SoFCRenderer.cpp:888-926 | the inner loop of `setHighlight` stores the non-empty caches of one material in order |
| Renderer.Renderer.HighlightGroup | src/Gui/Inventor/SoFCRenderer.cpp:879-926 | a highlight material with no caches or an invisible draw style stores nothing |
| Renderer.Renderer.BuildHighlight | src/Gui/Inventor/SoFCRenderer.cpp:879-927 | the loops of `setHighlight` build the classified highlight list, every bucket indexing its entries |
| Renderer.Renderer.SetHighlight | src/Gui/Inventor/SoFCRenderer.cpp:872-929 | `setHighlight` replaces the highlight by the classified entries of the new caches; the scene counters lose the old keys and gain the new ones; the invariant holds |
| Renderer.Renderer.AddSelection | src/Gui/Inventor/SoFCRenderer.cpp:932-939 | a positive id goes to the on-top map, any other to the other map, the other map is untouched, and an update is requested |
| Renderer.Renderer.RemoveSelection | src/Gui/Inventor/SoFCRenderer.cpp:942-950 | the id's selection leaves its map and the other map is untouched; an update is requested exactly when something was removed |
| Renderer.Renderer.CheckKey | src/Gui/Inventor/SoFCRenderer.cpp:978-1010 | `checkKey` returns 0 exactly when the candidate is dropped (empty box or repeated whole-object entry), and then leaves the selection list alone; otherwise it stores the entry, returns its position plus one, and keeps the selection keys applied |
| Renderer.Renderer.FileOnTopSelection | src/Gui/Inventor/SoFCRenderer.cpp:1024-1046 | a kept on-top entry is filed by its primitive type and the id's bits |
| Renderer.Renderer.FileOnTopTriangle | src/Gui/Inventor/SoFCRenderer.cpp:1025-1029 | the triangle case of the on-top switch |
| Renderer.Renderer.FileOnTopEdge | src/Gui/Inventor/SoFCRenderer.cpp:1030-1045 | the line and point cases of the on-top switch |
| Renderer.Renderer.FileOtherSelection | src/Gui/Inventor/SoFCRenderer.cpp:1067-1073 | a kept entry of the other map is filed by the opaque and transparent rules |
| Renderer.Renderer.SelectEntry | src/Gui/Inventor/SoFCRenderer.cpp:1019-1046 | one innermost iteration of `updateSelection` keeps its loop invariant and stores the candidate exactly when `checkKey` keeps it |
| Renderer.Renderer.SelectEntries | src/Gui/Inventor/SoFCRenderer.cpp:1019-1047 | the innermost loop keeps the invariant over the caches of one material |
| Renderer.Renderer.SelectGroup | src/Gui/Inventor/SoFCRenderer.cpp:1014-1047 | a material with no caches or an invisible draw style adds no candidate |
| Renderer.Renderer.SelectCaches | src/Gui/Inventor/SoFCRenderer.cpp:1013-1048 | the loop over one selection's vertex-cache map keeps the invariant |
| Renderer.Renderer.SelectMap | src/Gui/Inventor/SoFCRenderer.cpp:1012-1049 | the loop over one selection map keeps the invariant |
| Renderer.Renderer.SelectAll | src/Gui/Inventor/SoFCRenderer.cpp:1012-1076 | the on-top map is processed before the other map, and the invariant holds over all candidates |
| Renderer.Renderer.RebuildSelection | src/Gui/Inventor/SoFCRenderer.cpp:958-1076 | the rebuild yields the selection list and keys the classification describes, with the old selection counts taken off and the new ones applied |
| Renderer.Renderer.UpdateSelection | src/Gui/Inventor/SoFCRenderer.cpp:953-1077 | with no pending update nothing changes; otherwise the selection list, keys and scene counters are rebuilt as `Reselected` says; afterwards no update is pending and the invariant holds |
| Renderer.Renderer.GetBoundingBox | src/Gui/Inventor/SoFCRenderer.cpp:1080-1089 | brings the selection up to date, then returns the smallest box holding the caller's box and the scene, highlight and selection boxes |
| Renderer.Renderer.Clear | src/Gui/Inventor/SoFCRenderer.cpp:733-762 | `clear` empties every bucket, both selection maps, the keys, the highlight caches and the key table, resets the stored plane, keeps the entry lists and boxes, and leaves the invariant holding |
| Renderer.Renderer.ApplyMaterial | src/Gui/Inventor/SoFCRenderer.cpp:360-730 | the method returns true exactly when the shadow map does not refuse the material, moves the pass state as `Applying` says, and changes neither material nor trace when refused |
| Renderer.Renderer.OpaqueApply | src/Gui/Inventor/SoFCRenderer.cpp:1512-1520 | the opaque loop's apply succeeds exactly when not refused; on success it records the material and the pass, otherwise the pass state is unchanged |
| Renderer.Renderer.RecordMaterial | src/Gui/Inventor/SoFCRenderer.cpp:1517-1519 | remembers the entry's material and pass and clears the recheck flag, nothing else |
| Renderer.Renderer.TranspApply | src/Gui/Inventor/SoFCRenderer.cpp:1636-1643 | the transparency loop's apply succeeds exactly when not refused; on success it records the material, otherwise the pass state is unchanged |
| Renderer.Renderer.RecordTranspMaterial | src/Gui/Inventor/SoFCRenderer.cpp:1641-1642 | remembers the entry's material and clears the recheck flag, nothing else |
| Renderer.Renderer.RenderLines | src/Gui/Inventor/SoFCRenderer.cpp:1128-1137 | `renderLines` adds the draws `LineDraw` lists: none while writing depth only or rendering a shadow map |
| Renderer.Renderer.RenderPoints | src/Gui/Inventor/SoFCRenderer.cpp:1140-1150 | `renderPoints` draws as lines do, leaving out hidden vertices of whole outlined objects |
| Renderer.Renderer.OpaqueGeometry | src/Gui/Inventor/SoFCRenderer.cpp:1540-1580 | the primitive switch of the opaque loop adds the draws `OpaqueDraw` lists |
| Renderer.Renderer.OpaqueDrawStep | src/Gui/Inventor/SoFCRenderer.cpp:1529-1580 | the draw step of the opaque loop moves the pass state as `DrawOpaque` says |
| Renderer.Renderer.OpaqueStep | src/Gui/Inventor/SoFCRenderer.cpp:1505-1581 | one iteration of `renderOpaque` moves the pass state as `OpaqueEntry` says |
| Renderer.Renderer.OpaqueIter | src/Gui/Inventor/SoFCRenderer.cpp:1503-1582 | one turn of the loop extends the run by the next index |
| Renderer.Renderer.OpaqueLoop | src/Gui/Inventor/SoFCRenderer.cpp:1503-1583 | the loop over the bucket reaches the pass state of `OpaqueRun` over the bucket's indices |
| Renderer.Renderer.RenderOpaque | src/Gui/Inventor/SoFCRenderer.cpp:1494-1585 | records the visit; while a transparent shadow map is rendered nothing changes, otherwise the pass state is that of the whole opaque loop |
| Renderer.Renderer.TranspGeometry | src/Gui/Inventor/SoFCRenderer.cpp:1662-1702 | the primitive switch of the transparency loop adds the draws `TranspDraw` lists |
| Renderer.Renderer.TranspDrawStep | src/Gui/Inventor/SoFCRenderer.cpp:1652-1702 | the draw step of the transparency loop moves the pass state as `DrawTransp` says |
| Renderer.Renderer.TranspStep | src/Gui/Inventor/SoFCRenderer.cpp:1634-1703 | one iteration of `renderTransparency` moves the pass state as `TranspEntry` says |
| Renderer.Renderer.TranspIter | src/Gui/Inventor/SoFCRenderer.cpp:1632-1703 | one turn of the loop extends the run by the next record |
| Renderer.Renderer.TranspEntries | src/Gui/Inventor/SoFCRenderer.cpp:1632-1703 | the loop over the records reaches the pass state of `TranspRun` |
| Renderer.Renderer.TranspLoop | src/Gui/Inventor/SoFCRenderer.cpp:1628-1709 | the loop with blending switched on before and off after reaches the pass state of `BlendedRun` |
| Renderer.Renderer.MeasureAndSort | src/Gui/Inventor/SoFCRenderer.cpp:1612-1626 | each record gets the distance of its entry's box centre from the plane; the bucket ends sorted by distance and is a permutation of the measured records; nothing else in the lists changes |
| Renderer.Renderer.ResortBucket | src/Gui/Inventor/SoFCRenderer.cpp:1603-1626 | the bucket is re-measured and sorted exactly when it is not quiet, sorting is asked for, faces are drawn and the view plane's normal changed; the stored normal is then updated |
| Renderer.Renderer.SortBucket | src/Gui/Inventor/SoFCRenderer.cpp:1603-1626 | sorting leaves the lists indexed, changes only record order and distances, and does not change whether the bucket is quiet |
| Renderer.Renderer.BlendBucket | src/Gui/Inventor/SoFCRenderer.cpp:1628-1709 | a quiet bucket changes nothing; otherwise the commands are bracketed by the blend switch-on and switch-off |
| Renderer.Renderer.DrawTransparency | src/Gui/Inventor/SoFCRenderer.cpp:1593-1709 | records the visit; a quiet bucket changes nothing; otherwise blending brackets the loop |
| Renderer.Renderer.RenderTransparency | src/Gui/Inventor/SoFCRenderer.cpp:1588-1711 | records the visit and changes the lists only in record order and distances; an empty bucket or an opaque shadow map changes nothing; otherwise blending brackets the loop |
| Renderer.Renderer.RenderVisit | src/Gui/Inventor/SoFCRenderer.cpp:1743-1789 | one draw-loop call of `render` records its visit and changes the lists only in record order |
| Renderer.Renderer.RenderScene | src/Gui/Inventor/SoFCRenderer.cpp:1743-1781 | the normal scene visits the opaque, selected, transparent and on-top buckets in the order of `ScenePlan` |
| Renderer.Renderer.DrawVisit | src/Gui/Inventor/SoFCRenderer.cpp:1798-1938 | a non-sorting loop call records its visit |
| Renderer.Renderer.DrawIf | src/Gui/Inventor/SoFCRenderer.cpp:1798-1938 | a conditional loop call records its visit only when the condition holds |
| Renderer.Renderer.DrawPairIf | src/Gui/Inventor/SoFCRenderer.cpp:1798-1938 | a conditional pair of loop calls records both visits only when the condition holds |
| Renderer.Renderer.EarlyOnTopPart | src/Gui/Inventor/SoFCRenderer.cpp:1798-1814 | the on-top transparent selections, then the highlight when it is drawn whole on top |
| Renderer.Renderer.PrepassPart | src/Gui/Inventor/SoFCRenderer.cpp:1822-1854 | the depth-only prepass visits what can hide on-top lines |
| Renderer.Renderer.LinePart | src/Gui/Inventor/SoFCRenderer.cpp:1859-1884 | the first pass over on-top lines and points, in the given pass |
| Renderer.Renderer.SolidPart | src/Gui/Inventor/SoFCRenderer.cpp:1886-1914 | the solid second pass over the on-top lines and points |
| Renderer.Renderer.LatePart | src/Gui/Inventor/SoFCRenderer.cpp:1916-1933 | the highlight, when it is not drawn whole on top |
| Renderer.Renderer.StyledLines | src/Gui/Inventor/SoFCRenderer.cpp:1822-1914 | with line styling, a depth-only prepass, then the first line pass, then the solid second pass; the depth-only flag is off afterwards |
| Renderer.Renderer.RenderOnTop | src/Gui/Inventor/SoFCRenderer.cpp:1798-1938 | everything after the scene is visited in the order of `OnTopPlan`; `hassel` and `hasontop` are taken where `render` takes them |
| Renderer.Renderer.RefreshSelection | src/Gui/Inventor/SoFCRenderer.cpp:1726 | the frame's selection update leaves no update pending, keeps the invariant and the shadow flags |
| Renderer.Renderer.SetShadowFlags | src/Gui/Inventor/SoFCRenderer.cpp:1721-1724 | transparent shadow mapping is on only when shadow mapping is on |
| Renderer.Renderer.ResetFrame | src/Gui/Inventor/SoFCRenderer.cpp:1728-1738 | the loop state is reset, the attributes and Inventor state saved, and colour material enabled |
| Renderer.Renderer.EndFrame | src/Gui/Inventor/SoFCRenderer.cpp:1782-1942 | after the scene a frame either ends early (shadows deferred, or a shadow map) or draws everything on top; the trace ends by restoring the state, after queueing the delayed path when shadows are deferred |
| Renderer.Renderer.RenderBody | src/Gui/Inventor/SoFCRenderer.cpp:1743-1942 | the scene (unless rendering delayed paths), then the end of the frame: the visits follow `Plan`, and the trace ends restored |
| Renderer.Renderer.ResetAndRender | src/Gui/Inventor/SoFCRenderer.cpp:1728-1942 | the frame after the selection update: visits follow `Plan`, the selection state and shadow flags are untouched, the lists change only in record order, and the trace ends restored |
| Renderer.Renderer.RestoreValid | src/Gui/Inventor/SoFCRenderer.cpp:1612-1626 | lists that differ from valid ones only in the order and distances of their records leave the invariant holding |
| Renderer.Renderer.RefreshAndRender | src/Gui/Inventor/SoFCRenderer.cpp:1726-1942 | the selection update, then the frame: the invariant holds again, no update is pending, the visits follow `Plan`, and the trace ends restored |
| Renderer.Renderer.Render | src/Gui/Inventor/SoFCRenderer.cpp:1714-1943 | `render` sets the shadow flags, visits the buckets in the order `Plan` gives for the frame's flags, keeps the invariant, and ends with the Inventor state and attributes restored (after queueing the delayed path when shadows are deferred) |
| ParamLocks.LockNames | src/Base/Parameter.cpp:228-233 | a lock always holds at least one name: "*" when it is given none |
| ParamLocks.LockCheck | src/Base/Parameter.cpp:1285-1291 | the check fails exactly when the group holds a count for "*" or for the name, and the error names the group |
| ParamLocks.IncAllCounts | src/Base/Parameter.cpp:233-235 | counting names up adds each name's number of occurrences and keeps every count positive |
| ParamLocks.DecAllCounts | src/Base/Parameter.cpp:241-246 | counting names down subtracts each name's occurrences, never below zero, and drops the zero counts |
| ParamLocks.AcquireCounts | src/Base/Parameter.cpp:228-236 | a new lock adds one count per occurrence of a name, for its group only |
| ParamLocks.AcquireWellFormed | src/Base/Parameter.cpp:228-236 | acquiring a non-empty name list keeps the lock table free of zero counts and empty groups |
| ParamLocks.ReleaseCounts | src/Base/Parameter.cpp:238-250 | destroying a lock removes one count per occurrence of a name, for its group only, and keeps the table well formed |
| ParamLocks.SameCounts | src/Base/Parameter.cpp:226 | a well-formed lock table is determined by its counts |
| ParamLocks.LockRoundTrip | src/Base/Parameter.cpp:228-250 | creating a lock and destroying it leaves the lock table exactly as it was |
| ParamLocks.LockedWhileHeld | src/Base/Parameter.cpp:228-236 | while a lock lives its group is locked for a name exactly when the lock has no names, holds the name or "*", or the name was locked already |
| ParamLocks.LockRegistry.constructor | src/Base/Parameter.cpp:226 | the lock table starts empty |
| ParamLocks.LockRegistry.Lock | src/Base/Parameter.cpp:228-236 | the constructor returns the names the lock holds and counts them up in the table |
| ParamLocks.LockRegistry.Unlock | src/Base/Parameter.cpp:238-250 | the destructor counts the lock's names down in the table |
| ParamValues.Decimal | src/Base/Parameter.cpp:707-712 | the digits `sprintf` writes: decimal digits without a leading zero |
| ParamValues.DecimalValue | src/Base/Parameter.cpp:707-712 | reading back the digits of a number gives the number |
| ParamValues.SkipSpace | src/Base/Parameter.cpp:694-705 | leading white space is dropped and nothing else added |
| ParamValues.ParseLong | src/Base/Parameter.cpp:694-705 | `atol` yields a value in the range of a 64-bit `long` |
| ParamValues.ParseULong | src/Base/Parameter.cpp:759-770 | `strtoul` yields a value in the range of a 64-bit `unsigned long` |
| ParamValues.ParseFormatLong | src/Base/Parameter.cpp:694-712 | every `long` that `SetInt` prints is read back by `GetInt` as itself |
| ParamValues.ParseFormatULong | src/Base/Parameter.cpp:759-777 | every `unsigned long` that `SetUnsigned` prints is read back by `GetUnsigned` as itself |
| ParamValues.DecodeEncodeBool | src/Base/Parameter.cpp:623-642 | "1" and "0" read back as the boolean that wrote them, and re-encoding is stable |
| ParamValues.FirstSlash | src/Base/Parameter.cpp:441 | the first separator of a path, or its end |
| ParamValues.Split | src/Base/Parameter.cpp:441 | `boost::split` gives at least one token, empty tokens included |
| ParamValues.SplitNoSlash | src/Base/Parameter.cpp:441 | no token holds the separator |
| ParamValues.SplitAppend | src/Base/Parameter.cpp:441 | splitting at a separator splits the two sides apart |
| ParamValues.TrimRight | src/Base/Parameter.cpp:443 | trailing white space is dropped |
| ParamValues.TrimShape | src/Base/Parameter.cpp:443 | a trimmed token has no white space at either end and no new separator |
| ParamValues.PathTokensPlain | src/Base/Parameter.cpp:441-447 | every name `GetGroup` walks is non-empty, trimmed and without a separator |
| ParamValues.JoinNameTokens | src/Base/Parameter.cpp:523-532 | a path joined from a parent path and a name tokenises into the parent's tokens and the name's |
| ParamValues.BlankSegmentIgnored | src/Base/Parameter.cpp:441-447 | a blank segment between two separators does not change which group a path names |
| ParamTree.Find | src/Base/Parameter.cpp:1242-1266 | `FindElement` gives the first element of that type and name, or none when there is none |
| ParamTree.FindIs | src/Base/Parameter.cpp:1242-1266 | the position of the first match determines the lookup |
| ParamTree.Decode | src/Base/Parameter.cpp:623-966 | a getter's decoded value has the kind of the element it read |
| ParamTree.DecodeEncode | src/Base/Parameter.cpp:623-966 | every value a setter stores reads back as itself |
| ParamTree.DecodeInRange | src/Base/Parameter.cpp:694-770 | every value a getter reads fits its C++ type |
| ParamTree.LookupMember | src/Base/Parameter.cpp:1242-1266 | without repeated keys, an element is in the group exactly when it is found by its own type and name |
| ParamTree.StoreLookup | src/Base/Parameter.cpp:592-621 | a setter leaves its parameter holding the stored text, and every other parameter as it was |
| ParamTree.StoreRead | src/Base/Parameter.cpp:592-637 | a setter's parameter reads as the value it stored |
| ParamTree.RemoveLookup | src/Base/Parameter.cpp:1021-1127 | after a removal the parameter is absent and the others are unchanged |
| ParamTree.RemoveMembers | src/Base/Parameter.cpp:1021-1127 | a removal keeps exactly the elements of another type or name |
| ParamTree.SetBoolGetBool | src/Base/Parameter.cpp:623-642 | `GetBool` after `SetBool(b)` reads `b`, whatever the preset |
| ParamTree.SetIntGetInt | src/Base/Parameter.cpp:694-712 | `GetInt` after `SetInt(i)` reads `i` |
| ParamTree.SetUnsignedGetUnsigned | src/Base/Parameter.cpp:759-777 | `GetUnsigned` after `SetUnsigned(u)` reads `u` |
| ParamTree.SetASCIIGetASCII | src/Base/Parameter.cpp:903-966 | `GetASCII` after `SetASCII(t)` reads `t` |
| ParamTree.RemoveGetsPreset | src/Base/Parameter.cpp:1040-1057 | after `RemoveBool` the getter returns its preset again |
| ParamTree.SecondSetSilent | src/Base/Parameter.cpp:592-621 | setting the value a parameter already holds signals no change, and setting twice is the same as once |
| ParamTree.RevertOneSpec | src/Base/Parameter.cpp:407-430 | one step of `revert` removes exactly the element that reads the other group's value |
| ParamTree.RevertFoldSpec | src/Base/Parameter.cpp:407-430 | one value loop of `revert` keeps exactly the elements no element of the other group reverts |
| ParamTree.RevertAllSpec | src/Base/Parameter.cpp:407-425 | after the value loops no remaining parameter holds the other group's value for it (floats aside), and nothing else is removed |
| ParamTree.CopyOneLookup | src/Base/Parameter.cpp:317-343 | one `insertTo` step sets the parameter it copies and no other |
| ParamTree.CopyFoldFrame | src/Base/Parameter.cpp:317-343 | a copy loop leaves every parameter it does not copy as it was |
| ParamTree.CopyFoldReads | src/Base/Parameter.cpp:317-343 | after a copy loop the destination reads every value it copied |
| ParamTree.CopyAllMirrors | src/Base/Parameter.cpp:304-344 | after the value loops of `insertTo` the destination reads every value of the source |
| ParamTree.EntriesValid | src/Base/Parameter.cpp:592-621 | writing a group's elements with unique keys keeps the tree valid |
| ParamTree.AddChildValid | src/Base/Parameter.cpp:481-521 | creating a sub-group under a new name keeps the tree valid |
| ParamTree.AddOrphanValid | src/Base/Parameter.cpp:448-452 | the stand-in group `GetGroup` makes keeps the tree valid |
| ParamTree.FindChild | src/Base/Parameter.cpp:481-521 | the `_GroupMap` lookup finds a sub-group of that name, or says there is none |
| ParamTree.FindChildIs | src/Base/Parameter.cpp:481-521 | sibling names are unique, so each sub-group is found by its own name |
| ParamTree.Children | src/Base/Parameter.cpp:534-563 | `GetGroups` lists exactly the sub-groups |
| ParamTree.Resolve | src/Base/Parameter.cpp:434-456 | the group a path names, when all of it exists, is reached by a walk of the path's names |
| ParamTree.ResolveComplete | src/Base/Parameter.cpp:434-456 | every group a path names is found |
| ParamTree.DescendsUnique | src/Base/Parameter.cpp:434-456 | a path names at most one group |
| ParamTree.DescendsNext | src/Base/Parameter.cpp:434-456 | when the whole path exists, every step of the walk finds an existing sub-group |
| ParamTree.GetPathResolves | src/Base/Parameter.cpp:523-532 | `GetGroup(GetPath())` from the manager walks back down to the group, when its names are plain |
| ParamTree.Cleared | src/Base/Parameter.cpp:1184-1225 | after `Clear` the group has no elements, and every group below it is emptied and unlinked |
| ParamTree.ClearChildStep | src/Base/Parameter.cpp:1184-1225 | clearing a sub-group and unlinking it advances the `Clear` loop by one group |
| ParamTree.ClearedEmpty | src/Base/Parameter.cpp:1184-1225 | after `Clear` the group has no parameters and no sub-groups, and the tree stays valid |
| ParamTree.RemovedGone | src/Base/Parameter.cpp:1129-1156 | after `RemoveGrp` the parent has no sub-group of that name, and the tree stays valid |
| ParamTree.RenameFinds | src/Base/Parameter.cpp:1158-1182 | renaming to a name no sibling has finds the group by the new name and no longer by the old |
| Parameters.ParameterManager.constructor | src/Base/Parameter.cpp:1407-1410 | a manager has its root group with an element and no parameters |
| Parameters.ParameterManager.GetChild | src/Base/Parameter.cpp:481-521 | `_GetGroup` gives nothing for an orphan group, the existing sub-group unchanged, or else a new sub-group of that name appended |
| Parameters.ParameterManager.GetGroup | src/Base/Parameter.cpp:434-456 | no path gives the group itself; a walk reaches the group the path names, creating missing ones; an existing named group is returned with nothing created; an orphan start gives a stand-in named by the whole path |
| Parameters.ParameterManager.Walk | src/Base/Parameter.cpp:440-454 | the walk reaches the group the names lead to, and creates nothing when it exists |
| Parameters.ParameterManager.WalkStep | src/Base/Parameter.cpp:442-447 | one name of the walk goes one level down |
| Parameters.ParameterManager.RenameGrp | src/Base/Parameter.cpp:1158-1182 | renaming succeeds exactly when the group has an element, the old name exists and the new name is free; then only that sub-group is renamed and the change is signalled; otherwise nothing changes |
| Parameters.ParameterManager.Clear | src/Base/Parameter.cpp:1184-1225 | the group becomes the cleared tree `Cleared` describes; an orphan group is left alone |
| Parameters.ParameterManager.RemoveGrp | src/Base/Parameter.cpp:1129-1156 | an unknown name changes nothing; otherwise the sub-group is cleared and taken out and its removal is signalled last |
| Parameters.ParameterManager.SetAttribute | src/Base/Parameter.cpp:592-621 | an orphan group ignores the write; a locked name gives the lock error and changes nothing; otherwise the value is written, the change signalled only when it differs, and the write observed |
| Parameters.ParameterManager.SetBool | src/Base/Parameter.cpp:639-642 | fails exactly for a locked name; on success the group stores "1" or "0" and `GetBool` reads the value |
| Parameters.ParameterManager.SetInt | src/Base/Parameter.cpp:707-712 | fails exactly for a locked name; on success `GetInt` reads the value |
| Parameters.ParameterManager.SetUnsigned | src/Base/Parameter.cpp:772-777 | fails exactly for a locked name; on success `GetUnsigned` reads the value |
| Parameters.ParameterManager.SetASCII | src/Base/Parameter.cpp:903-941 | no lock check; the text is stored, the change signalled for a new element or a changed text, and `GetASCII` reads the text |
| Parameters.ParameterManager.SetValue | src/Base/Parameter.cpp:317-343 | the setter of a value's kind changes only that group's parameter, failing exactly for a locked non-text name |
| Parameters.ParameterManager.Remove | src/Base/Parameter.cpp:1021-1127 | a missing element changes nothing; otherwise it goes and its removal is signalled with no value |
| Parameters.ParameterManager.RevertStep | src/Base/Parameter.cpp:407-410 | one step of a `revert` loop removes the parameter exactly when it reads the other group's value |
| Parameters.ParameterManager.RevertKind | src/Base/Parameter.cpp:407-430 | one value loop of `revert` removes what `RevertFold` removes |
| Parameters.ParameterManager.RevertEntries | src/Base/Parameter.cpp:407-430 | the group's parameters become exactly what `RevertAll` keeps of them against the other group's, every other group is unchanged, an orphan group is left alone, and no parameter left holds the other group's value |
| Parameters.ParameterManager.Revert | src/Base/Parameter.cpp:397-431 | reverting against itself changes nothing; otherwise only parameters are removed, no group changes but this one and those its sub-group loop may reach (`MayChange`), this group's parameters are exactly what `RevertAll` keeps when the other group's sub-groups have plain names, and none left holds the other group's value |
| Parameters.ParameterManager.RevertChildren | src/Base/Parameter.cpp:402-405 | the sub-group loop of `revert` only removes parameters, and only in groups below a sub-group of this group whose name a sub-group of the other group has |
| Parameters.ParameterManager.CopyStep | src/Base/Parameter.cpp:317-343 | one `insertTo` step sets the copied parameter in the destination, failing exactly when a lock refuses it |
| Parameters.ParameterManager.CopyKind | src/Base/Parameter.cpp:317-343 | a copy loop fails exactly when a lock refuses one of its writes; otherwise the destination is as `CopyFold` says |
| Parameters.ParameterManager.InsertEntries | src/Base/Parameter.cpp:317-343 | only the destination's parameters change; an orphan destination is left alone; without a refused write they are exactly `CopyAll` of the old ones and the source's, and read every value of the source |
| Parameters.ParameterManager.InsertTo | src/Base/Parameter.cpp:304-344 | inserting into itself changes nothing; otherwise no group changes but the destination and those its sub-group loop may reach, and without a refused write the destination reads every value of the source and, when the source's sub-groups have plain names, holds exactly `CopyAll` of its old parameters and the source's |
| Parameters.ParameterManager.InsertChildren | src/Base/Parameter.cpp:310-314 | the sub-group loop of `insertTo` keeps every group's name and place, and changes only groups in the destination's sub-groups named like the source's (or created by it) |
| Parameters.ParameterManager.CopyTo | src/Base/Parameter.cpp:292-302 | copying onto itself changes nothing; otherwise every other group is left as `Clear` left it, and without a refused write the destination reads every value of the source and, when the source's sub-groups have plain names, holds exactly `CopyAll([], …)` of the source's parameters |
| Parameters.RevertEntriesSpec | src/Base/Parameter.cpp:407-430 | the four value loops of `revert` turn the tree into the one where only this group's parameters are replaced by what `RevertAll` keeps, so nothing is added, the other group is untouched and no parameter left holds the other group's value |
| Parameters.ParameterManager.HasGroup | src/Base/Parameter.cpp:575-584 | true exactly when the group has a sub-group of that name |
| Parameters.ParameterManager.IsEmpty | src/Base/Parameter.cpp:566-572 | true exactly when the group has no element, or its element holds no parameter and no sub-group |
| Parameters.CopyToFrame | src/Base/Parameter.cpp:292-302 | once `Clear` has cut the destination's sub-groups off, the insert that follows can change no other older group |
| Parameters.TurnFrame | src/Base/Parameter.cpp:310-314 | one turn of the sub-group loop (the `GetGroup` of the name and the recursive call) changes no group the loop may not change |
| Parameters.TurnTarget | src/Base/Parameter.cpp:310-314 | the group `GetGroup` gives for a sub-group's name, and all below it, lie in the part of the tree the loop may change |
| ParamTree.CopyAllKeeps | src/Base/Parameter.cpp:317-343 | the value loops of `insertTo` take no parameter away, and leave every parameter the source has no element for as it was |
| ParamTree.ClearedNoAnc | src/Base/Parameter.cpp:1184-1225 | after `Clear` no group lies below the cleared group any more |
| TransformedOriginals.GetBaseObject | src/Mod/PartDesign/App/FeatureTransformed.cpp:105-130 | the base feature when there is one; else the first original when it is a Part feature; otherwise an error naming why (no originals, or not a Part object), which a silent lookup turns into no object |
| TransformedOriginals.SilentLookupAgrees | src/Mod/PartDesign/App/FeatureTransformed.cpp:105-130 | a silent lookup gives what the loud one gives, with no object in place of the error, and never fails |
| TransformedOriginals.DesignOnlyMembers | src/Mod/PartDesign/App/FeatureTransformed.cpp:190-198 | the filter keeps exactly the PartDesign features |
| TransformedOriginals.DesignOnlyAppend | src/Mod/PartDesign/App/FeatureTransformed.cpp:190-198 | the filter keeps the relative order of what it keeps |
| TransformedOriginals.KeepDesignFeatures | src/Mod/PartDesign/App/FeatureTransformed.cpp:190-198 | the erase loop leaves the PartDesign originals, in order |
| TransformedOriginals.HistoryOrder | src/Mod/PartDesign/App/FeatureTransformed.cpp:210-284 | the corrected order visits the originals found in the body by body position, then the others in list order, each original exactly once |
| TransformedOriginals.SplitFound | src/Mod/PartDesign/App/FeatureTransformed.cpp:212-219 | the loop over the originals splits their positions into those found in the body and the others, the others increasing |
| TransformedOriginals.HistoryOrderHolds | src/Mod/PartDesign/App/FeatureTransformed.cpp:210-227 | the found positions sorted by body index, followed by the others, are a history order |
| TransformedOriginals.VisitAsWritten | src/Mod/PartDesign/App/FeatureTransformed.cpp:284 | the visit as written takes the original of the `i`-th sorted pair while there is one, else the `i`-th original |
| TransformedOriginals.VisitAsWrittenMisorders | src/Mod/PartDesign/App/FeatureTransformed.cpp:210-284 | with a first original outside the body and two in it at body positions 5 and 3, the visit as written goes 1, 0, 2, which is not a history order |
| TransformedOriginals.PrepareOriginals | src/Mod/PartDesign/App/FeatureTransformed.cpp:190-227 | no PartDesign original and no base feature gives nothing (the shapes are cleared); no PartDesign original gives the base feature with the whole shape; otherwise the PartDesign originals in a history order |
| TransformedOriginals.NoBodyKeepsOrder | src/Mod/PartDesign/App/FeatureTransformed.cpp:210 | without a body (or with one original) the originals are visited in list order |
| TransformedOriginals.SubSolids | src/Mod/PartDesign/App/FeatureTransformed.cpp:318-332 | a sub-element stands for at least one solid; it fails with "Shape of source feature is empty" exactly when a named sub-element is missing, else with "Non solid source feature" |
| TransformedOriginals.TakeSolidsConsistent | src/Mod/PartDesign/App/FeatureTransformed.cpp:333-343 | every solid taken is in the fuse set afterwards, and no shape is taken twice |
| TransformedOriginals.TakeSubsConsistent | src/Mod/PartDesign/App/FeatureTransformed.cpp:318-344 | a successful sub-element loop fuses the solids of every sub-element |
| TransformedOriginals.TakeSubsFails | src/Mod/PartDesign/App/FeatureTransformed.cpp:318-344 | the sub-element loop fails exactly when one of the sub-elements has no solid to give |
| TransformedOriginals.CollectFails | src/Mod/PartDesign/App/FeatureTransformed.cpp:283-345 | `execute` stops with an error exactly when some visited original fails |
| TransformedOriginals.CollectConsistent | src/Mod/PartDesign/App/FeatureTransformed.cpp:283-345 | a successful collection transforms no shape twice as a fuse or twice as a cut, and fuses every solid of every plain original |
| TransformedOriginals.VisitConsistent | src/Mod/PartDesign/App/FeatureTransformed.cpp:285-344 | one visited original keeps the collection consistent and fuses its solids |
| TransformedOriginals.TakeShape | src/Mod/PartDesign/App/FeatureTransformed.cpp:300-343 | a shape is taken once per fuse or cut set, with its name, flag and start index |
| TransformedOriginals.CollectShapes | src/Mod/PartDesign/App/FeatureTransformed.cpp:283-345 | the loop over the visiting order computes `Collect` |
| TransformedOriginals.VisitOriginal | src/Mod/PartDesign/App/FeatureTransformed.cpp:285-344 | the loop body computes `Visit` for one original |
| TransformedOriginals.CollectTools | src/Mod/PartDesign/App/FeatureTransformed.cpp:300-315 | the loop over an add/sub feature's shapes computes `TakeTools` |
| TransformedOriginals.CollectSubs | src/Mod/PartDesign/App/FeatureTransformed.cpp:318-344 | the sub-element loop computes `TakeSubs`, stopping at the first failure |
| TransformedOriginals.CollectSolids | src/Mod/PartDesign/App/FeatureTransformed.cpp:333-343 | the solid loop computes `TakeSolids` |
| TransformedShapes.RunsSpec | src/Mod/PartDesign/App/FeatureTransformed.cpp:583-597 | the runs concatenate back to the list, each is non-empty with one flag, and neighbouring runs have different flags |
| TransformedShapes.CompactSpec | src/Mod/PartDesign/App/FeatureTransformed.cpp:583-597 | compaction leaves one entry per maximal run: the entry itself when alone, else the compound of the run's shapes |
| TransformedShapes.CompactAlternates | src/Mod/PartDesign/App/FeatureTransformed.cpp:583-597 | after compaction no two neighbours share a flag |
| TransformedShapes.CompactAddSub | src/Mod/PartDesign/App/FeatureTransformed.cpp:583-597 | the compaction loop computes `Compact` |
| TransformedShapes.MergeRun | src/Mod/PartDesign/App/FeatureTransformed.cpp:585-596 | the inner loop erases the rest of the run after `i` and makes entry `i` the run's compound, leaving the other entries in place |
| TransformedShapes.CompactStep | src/Mod/PartDesign/App/FeatureTransformed.cpp:583-597 | one outer step of the loop compacts one maximal run |
| TransformedShapes.LayoutGeneralRoundTrip | src/Mod/PartDesign/App/FeatureTransformed.cpp:620-632 | in the general layout each child of the compound reads back as its entry, a cut marked by a leading empty compound |
| TransformedShapes.LayoutSpecialCases | src/Mod/PartDesign/App/FeatureTransformed.cpp:578-619 | no entry stores nothing; a lone plain fuse is stored bare, a lone plain cut behind the marker, and a plain fuse then cut as a pair |
| TransformedShapes.EncodeAddSub | src/Mod/PartDesign/App/FeatureTransformed.cpp:578-632 | the encoding of `AddSubShape` computes `Layout` |
| TransformedShapes.TouchSymmetric | src/Mod/PartDesign/App/FeatureTransformed.cpp:688 | touching does not depend on the order of the two boxes |
| TransformedShapes.TouchesGroup | src/Mod/PartDesign/App/FeatureTransformed.cpp:684-693 | the scan finds a member exactly when the tool touches one |
| TransformedShapes.DivideTools | src/Mod/PartDesign/App/FeatureTransformed.cpp:658-711 | every tool lands in exactly one output; the compound holds exactly the tools that touch no other tool |
| TransformedShapes.GrowGroup | src/Mod/PartDesign/App/FeatureTransformed.cpp:679-700 | the scan grows a group of at least one tool, linked by touching, with no remaining tool touching it |
| TransformedShapes.GroupDoneSingle | src/Mod/PartDesign/App/FeatureTransformed.cpp:702-703 | a group that stayed at one tool holds a tool that touches no other |
| TransformedShapes.GroupDoneMany | src/Mod/PartDesign/App/FeatureTransformed.cpp:704-709 | every tool of a larger group touches another tool |
| TransformedLinks.DedupSpec | src/Mod/PartDesign/App/FeatureTransformed.cpp:755-759 | de-duplication keeps exactly the objects of the list, each once, in the order of first occurrence |
| TransformedLinks.DedupDistinct | src/Mod/PartDesign/App/FeatureTransformed.cpp:755-759 | a list without repeats is left as it is |
| TransformedLinks.DedupIdempotent | src/Mod/PartDesign/App/FeatureTransformed.cpp:755-759 | de-duplicating twice is de-duplicating once |
| TransformedLinks.Regrouped | src/Mod/PartDesign/App/FeatureTransformed.cpp:735-748 | the rebuilt `OriginalSubs` has one entry per distinct object |
| TransformedLinks.RegroupedObjects | src/Mod/PartDesign/App/FeatureTransformed.cpp:735-748 | the rebuilt `OriginalSubs` lists exactly the de-duplicated `Originals`, in order |
| TransformedLinks.RegroupedStable | src/Mod/PartDesign/App/FeatureTransformed.cpp:727-753 | once rebuilt, a further change of `Originals` rewrites nothing |
| TransformedLinks.RegroupedKeepsNames | src/Mod/PartDesign/App/FeatureTransformed.cpp:728-748 | no sub-element name of an object still linked is lost: each entry's names appear, in order, in the object's rebuilt entry |
| TransformedLinks.TransformedLinks.constructor | src/Mod/PartDesign/App/FeatureTransformed.cpp:721 | the feature holds the given link properties |
| TransformedLinks.TransformedLinks.OnOriginalsChanged | src/Mod/PartDesign/App/FeatureTransformed.cpp:721-753 | when ready, `OriginalSubs` becomes the regrouped list, written exactly when an entry is left over, an object had no entry, or the lists differ; `Originals` is untouched |
| TransformedLinks.TransformedLinks.OnOriginalSubsChanged | src/Mod/PartDesign/App/FeatureTransformed.cpp:721-766 | when ready, `Originals` becomes the objects of `OriginalSubs` in order of first occurrence, written exactly when that differs |
| TransformedLinks.TransformedLinks.OnDocumentRestored | src/Mod/PartDesign/App/FeatureTransformed.cpp:713-719 | a file with `Originals` but no `OriginalSubs` gets one whole-shape entry per object; otherwise nothing changes |
| TransformedLinks.WholeShapes | src/Mod/PartDesign/App/FeatureTransformed.cpp:715-716 | one whole-shape entry per object, in order |
| TransformedLinks.RegroupLinks | src/Mod/PartDesign/App/FeatureTransformed.cpp:734-752 | the handler's loop computes the rebuilt list, whether entries were left over and whether an object had none |
| TransformedLinks.LeftoverKeys | src/Mod/PartDesign/App/FeatureTransformed.cpp:749 | the map is non-empty after the loop exactly when entries were left over |
| TransformedLinks.GroupNames | src/Mod/PartDesign/App/FeatureTransformed.cpp:728-733 | the first loop gathers, per object, the names of all its entries in order |
| GeoExport.FilterSpec | src/Gui/ViewProviderGeoFeatureGroupExtension.cpp:189-194 | filtering keeps exactly the elements that pass, never lengthens, and keeps a list that passes whole |
| GeoExport.FilterAppend | src/Gui/ViewProviderGeoFeatureGroupExtension.cpp:189-194 | filtering keeps the relative order of what it keeps |
| GeoExport.EraseUnless | src/Gui/ViewProviderGeoFeatureGroupExtension.cpp:189-194 | the erase-while-iterating loop keeps exactly the passing elements in order |
| GeoExport.LinkedChildrenSpec | src/Gui/ViewProviderGeoFeatureGroupExtension.cpp:177-195 | a null or unnamed object leaves the children alone; otherwise exactly the children reached by a non-global link of the object stay |
| GeoExport.FilterLinksByScope | src/Gui/ViewProviderGeoFeatureGroupExtension.cpp:177-195 | the function computes `LinkedChildren` |
| GeoExport.OutSetSpec | src/Gui/ViewProviderGeoFeatureGroupExtension.cpp:205-217 | an object is claimed exactly when a member that is not a geo group, has a view provider other than the owner's, claims it, and the scope filter lets it through |
| GeoExport.ExportListSpec | src/Gui/ViewProviderGeoFeatureGroupExtension.cpp:219-226 | the export list holds exactly the named, unclaimed members of the group |
| GeoExport.ExportListAllKept | src/Gui/ViewProviderGeoFeatureGroupExtension.cpp:219-226 | a group of named, unclaimed members exports itself unchanged |
| GeoExport.GeoGroupView.constructor | src/Gui/ViewProviderGeoFeatureGroupExtension.cpp:198-202 | the view holds its owner, the group list and the export list |
| GeoExport.GeoGroupView.CollectClaimed | src/Gui/ViewProviderGeoFeatureGroupExtension.cpp:205-217 | the claim loop computes the claimed set |
| GeoExport.GeoGroupView.BuildExport | src/Gui/ViewProviderGeoFeatureGroupExtension.cpp:198-230 | the export list becomes the group's export list, however its size compares (the corrected update) |
| GeoExport.GeoGroupView.ReplaceObject | src/Gui/ViewProviderGeoFeatureGroupExtension.cpp:232-279 | returns 0 and changes nothing unless the old object is exported; otherwise 1 is returned, the export list is kept, and the group, emptied and refilled (with `addObjects` taken as appending in order), is the export list with every occurrence replaced |
| GeoExport.ReplacedSpec | src/Gui/ViewProviderGeoFeatureGroupExtension.cpp:243-247 | replacing leaves no old object behind, puts the new one in its places, and changes nothing else |
| GeoExport.ExportAsWrittenStale | src/Gui/ViewProviderGeoFeatureGroupExtension.cpp:228-229 | a group whose member is swapped for another keeps the stale export list |
| GeoExport.ExportAsWrittenCorrectIff | src/Gui/ViewProviderGeoFeatureGroupExtension.cpp:228-229 | the size-only comparison leaves the export list right exactly when the size changed or the list was right already |

## Left out

Renderer (`src/Gui/Inventor/SoFCRenderer.cpp`):

- OpenGL, Open Inventor and the vertex caches are not called. Each call becomes an abstract command in `trace` or `draws`, and each cache query is a field of the cache entry.
- Not modelled:
  - the vertex arrays and their flags;
  - `setupMatrix` and the model matrix, including the plane transform before sorting;
  - `pauseShadowRender`;
  - `renderOutline`;
  - the two-sided lighting switch around transparent caches;
  - `FC_GLERROR_CHECK`.
- In the draw loops a triangle, line or point entry is drawn once. The section repetition that `renderSection` drives is modelled on its own (`Section.RenderSection`, `Section.SectionPasses`) and is not composed into the loops. The cull test inside that repetition is not modelled, because it depends on the view volume.
- Renderer.Renderer.RenderTransparency: what the frame sees is weaker than what is proved one level down. The frame sees the visit, the list contents up to record order, and that blending brackets the loop. The exact pass state is stated by `Renderer.Renderer.TranspLoop` and `Renderer.Renderer.ResortBucket`. It is not carried up through `Renderer.Renderer.DrawTransparency` and `Renderer.Renderer.BlendBucket`, to keep those proofs small.
- Renderer.Renderer.Render: it states the order of the draw-loop calls (`visits`), the shadow flags, the invariant, and how the trace ends. It does not state the full command trace of a frame. That trace is specified loop by loop (`RenderPasses.OpaqueRun`, `RenderPasses.BlendedRun`).
- Renderer.Renderer.RefreshSelection: it states only what a frame needs from the selection update (invariant, no pending update, shadow flags and `visits` untouched). The full effect is `Renderer.Renderer.UpdateSelection`.
- View parameters (`ViewParams::get…`) are fixed for a renderer's life, in `params`. The source reads them at every use, so a change between frames is not modelled.
- `notexture` is reset to false at every frame and never set, because the assignments in `render` are commented out. The texture commands are modelled for either value.
- `Material::init` is the fixed material `initmaterial`.
- The sorting plane is the view plane's normal plus a distance function. Floating-point distance is modelled as `real`, and the order of records with equal distances is unspecified, as with `std::sort`.
- `std::map<int, …>` selection maps are sequences kept in ascending id order.
- A selection's vertex-cache map is copied by value when it is added, so later changes to the caller's map are not seen.
- The `lastkey` and `selkey` buffer of `checkKey` is not modelled. Each whole-object selection key is computed as the cache key followed by node id and primitive type, which gives the same key sets.
- `clear` empties the key table but leaves the scene entries' skip counters as they are, as the source does. The ghost flag `cleared` records this.
- `hasontop` requires both on-top triangles and on-top lines, as written at SoFCRenderer.cpp:1819.
- The hatch texture is never made: the `glGenTextures` and texture upload that `renderSection` performs the first time a hatch is drawn (SoFCRenderer.cpp:1416-1425) are not modelled. A registry entry's `texture` stays 0, so releasing it records no deleted texture.

Parameters (`src/Base/Parameter.cpp`):

- Floating-point parameters (`GetFloat`, `SetFloat`, their maps and loops) are left out. "FCFloat" elements are carried along but never decoded.
- Not modelled: blobs, `GetASCIIMap` and the other map getters, `GetParameterNames`.
- The XML/DOM document, file `revert`, import/export, the serializer and the observer classes are left out. The changes a group reports are recorded in `signals`.
- A detached group and its re-attachment are not modelled, nor are the `ShouldRemove` reference counting and the `_Clearing` guard. A removed group is unlinked from its parent and stays in the arena.
- `Clear` visits sub-groups in handle (creation) order, whereas the source visits them in name order. The final state is the same; the order of the signals can differ.
- Parameters.ParameterManager.Revert: the recursion into sub-groups has a `fuel` bound; deeper levels are left as they are. The no-leftover property is stated for the group itself, not for its sub-groups.
- Parameters.ParameterManager.Revert: when a sub-group of the other group has a name with a separator or surrounding blanks, `GetGroup` of that name may walk into or create groups of any depth. The contract then frames the change to this group and everything below it, and states the no-leftover property, but not this group's exact parameters.
- Parameters.ParameterManager.InsertTo: the recursion has a `fuel` bound. `insertTo` into a group inside its own source does not terminate in the source, because each level creates a sub-group that the next level copies again.
- Parameters.ParameterManager.InsertTo: as for `Revert`, the exact parameters of the destination are stated only when the source's sub-group names are plain; otherwise the frame and the mirror property are stated.
- Parameters.ParameterManager.InsertTo: after a write refused by a lock, the contract states only the frame and that names and places are kept. Which writes already happened in the destination is not stated.
- Parameters.ParameterManager.CopyTo: the mirror property and the exact parameters are stated for the destination's own parameters. Its sub-groups are framed (every group other than the destination is as `Clear` left it) but their contents after the insert are not stated.
- `long` and `unsigned long` are taken as 64 bits wide. The parsers of text that `sprintf` did not write saturate as `strtol` and `strtoul` do.
- Parameters.ParameterManager.GetChild: the model sends no signal when `_GetGroup` creates a sub-group. In the source the new element is already in `pcTemp` when the test at Parameter.cpp:517 runs, so "FCParamGroup" is signalled only when a detached group is re-attached, and re-attachment is not modelled.

Transformation features (`src/Mod/PartDesign/App/FeatureTransformed.cpp`):

- Not modelled:
  - OpenCascade geometry: transformations, booleans, refinement, intersection checks;
  - `positionBySupport`;
  - the transformation vectors of the subclasses;
  - `NewSolid` beyond `canSkipFirst`;
  - `getSketchObject`;
  - `mustExecute`.
- Shapes are tokens. Only a shape's compound structure and the solids a sub-element lies in are visible.
- `divideTools` takes the tools' bounding boxes (`BRepBndLib::Add` with no gap) as input. `Bnd_Box::IsOut` is modelled as a void box or a separation along some axis. It returns the tools' positions rather than the shapes.

Geo-feature group view provider (`src/Gui/ViewProviderGeoFeatureGroupExtension.cpp`):

- The global search of `extensionReplaceObject` for links to re-point (`CopyOnLinkReplace`, `Paste`) is left out, because it touches every document. Only the list update is modelled.
- GeoExport.GeoGroupView.ReplaceObject: `Group.setValues({})` followed by `addObjects(children)` is modelled as assigning the replaced list to `Group`. `addObjects` belongs to the group extension, which is not part of this model, so whatever it does beyond appending the objects in order (skipping some, adding others) is not captured. The contract states the group's list under that assumption.
- Objects, view providers, claimed children and scoped links are a finite table (`World`).

## Findings

| source | as written | input that shows it | evidently intended | confidence | as-written member | corrected member |
|---|---|---|---|---|---|---|
| src/Gui/Inventor/SoFCRenderer.cpp:301-309 | `deleteHatchTexture` returns early while the entry's count stays positive, and leaves `hatchtexture` pointing at it | two renderers share image 1; the first calls `setHatchImage(nullptr)` twice, or once and is then destroyed | clear this renderer's pointer on every release, so that a second release does nothing | high (not executed) | Hatch.ReleaseAsWrittenDangles | Hatch.HatchRegistry.Release |
| src/Mod/PartDesign/App/FeatureTransformed.cpp:210-227, 284 | `originalIndices` stores a counter raised only for originals found in the body, and visit `i` uses pair `i` while there is one, else original `i` | originals 0, 1, 2 where 0 is not in the body and 1, 2 are at body positions 5 and 3: the visit goes 1, 0, 2 | visit the originals found in the body in body order, then the others, each once | medium (not executed) | TransformedOriginals.VisitAsWrittenMisorders | TransformedOriginals.HistoryOrder |
| src/Gui/ViewProviderGeoFeatureGroupExtension.cpp:228-229 | `_ExportChildren` is rewritten only when the export list's size changed | the group's member 2 is replaced by member 3: the stored list stays `[1, 2]` while the export list is `[1, 3]` | rewrite whenever the list differs | medium (not executed) | GeoExport.ExportAsWrittenStale | GeoExport.GeoGroupView.BuildExport |

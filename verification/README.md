# FaceGen base library core, modelled in Dafny

This project models four parts of the FaceGen base library (LibFgBase) and proves properties of them:

- **The camera** (`camera.dfy`, module `Camera3d`). `Fg3dCameraParams::camera` turns model bounds, a pose, a pan, a zoom and a field of view into a camera. The camera holds a modelview transform, a symmetric frustum and the map from image tangent space to image unit space. `Fg3dCamera::toIpcsH` composes the camera into one homogeneous 4x4 matrix from object space to pixel space.
  - Arithmetic is exact (`real`).
  - `exp`, `tan` and `pi` are parameters (`MathLib`). Its `Sound` predicate states the facts the code relies on: `exp > 0`, `tan > 0` on (0, pi/2), and `pi > 0`.
- **The std::set utilities** (`stdset.dfy`, module `StdSet`).
  - `fgContains` is `Contains`.
  - The looping functions (`fgContainsAny`, `fgContainsAll`, `fgIntersection`, `operator-`) are methods with loop invariants.
  - The functions that only copy and insert (`fgUnion`, `fgInsert`) are functions.
  - The operations that mutate a set through a reference (`fgUnion_`, `operator+=`, `operator-=`) are methods on a `SetVar` object whose field holds the set.
  - The conversions `fgSetToVec` / `fgVecToSet` are functions. `fgSetToVec` is given for `set<int>`, whose iteration order is ascending.
- **The FGMESH file format** (`fgmesh.dfy`, module `Fgmesh`).
  - Every `fgWritep` is a function from a record to the bytes it appends.
  - Every `fgReadp` is a function from the input bytes to the record and the bytes left over, or `None` where the stream read fails.
  - The primitive field codecs and the vector layout live in serialisation code outside this model. They are parameters (`Prims`) assumed to round-trip (`Sound`).
  - `saveFgmesh` writes the `"FgMesh01"` header, then the mesh. `loadFgmesh` refuses a file whose first string is not that header.
- **The dependency-graph DOT writer** (`depgraph.dfy`, module `DepGraphDot`). `fgDepGraph2Dot` is a method that appends text with the same loops and the same stub skip as the C++ code. It is proved to produce `DotText`. The same output is also described as the list of pieces the writer appends (`DotLines`), each ending in a newline, proved to run together into that text. The properties about pieces and their order are stated on that list. When the graph label and the node names hold no line break, every piece is exactly one line of the text (`DotLinesAreTextLines`), and the text has as many lines as the list has entries (`TextLineCount`).

`wrappers.dfy` holds the `Option` and `Result` types, and `seqs.dfy` small facts about sequences shared by the codecs and the writer.

## Model

| member | source | states |
|---|---|---|
| Camera3d.MaxElem3 | source/LibFgBase/src/Fg3dCamera.cpp:57 | fgMaxElem: the result is at least every extent and equals one of them |
| Camera3d.ZeroVolumeIffFlat | source/LibFgBase/src/Fg3dCamera.cpp:56 | for non-negative extents, `volume() == 0` holds exactly when some extent is zero |
| Camera3d.NormaliseDims | source/LibFgBase/src/Fg3dCamera.cpp:53-57 | after the degenerate-bounds substitution every extent is strictly positive |
| Camera3d.NormaliseDimsCases | source/LibFgBase/src/Fg3dCamera.cpp:53-57 | all-zero extents become the unit cube; zero volume becomes the cube of the largest (positive) extent; otherwise the extents are kept |
| Camera3d.ClampFov | source/LibFgBase/src/Fg3dCamera.cpp:59 | the FOV is at least 0.0001 degrees, and unchanged when already at least that |
| Camera3d.ModelHalfDimMax | source/LibFgBase/src/Fg3dCamera.cpp:60 | modelHalfDimMax is positive, and twice it is the largest normalised extent: at least every extent and equal to one of them |
| Camera3d.HalfAngleInRange | source/LibFgBase/src/Fg3dCamera.cpp:63 | half of a FOV strictly between 0 and 180 degrees, in radians, lies strictly between 0 and pi/2 |
| Camera3d.HalfFovRad | source/LibFgBase/src/Fg3dCamera.cpp:59-63 | the argument given to tan lies in (0, pi/2) for every FOV below 180 degrees, the clamp included |
| Camera3d.HalfFovMaxItcs | source/LibFgBase/src/Fg3dCamera.cpp:63 | halfFovMaxItcs is positive |
| Camera3d.ViewDistances | source/LibFgBase/src/Fg3dCamera.cpp:64-77 | the fill distance times the tangent is the half size; the zoom divides it; zCentre is floored at 1.3 times the half size; near and far are 1.2 times the half size either side of it, so 0 < 0.1*h <= near < far; the near half width is near times the tangent |
| Camera3d.AspectAsWritten | source/LibFgBase/src/Fg3dCamera.cpp:61-70 | as written, the aspect is undefined (a division by zero) exactly for the (0,0) viewport |
| Camera3d.Aspect | source/LibFgBase/src/Fg3dCamera.cpp:61-70 | both aspect components lie in (0, 1]; a viewport with one zero side becomes (1,1) but keeps the larger side as divisor, so both components are 1 over that side; the (0,0) viewport gets (1,1) as intended (the source as written divides by zero there, see Findings) |
| Camera3d.AspectKeepsProportions | source/LibFgBase/src/Fg3dCamera.cpp:70 | for a viewport with both sides nonzero, the longer side gets 1 and the ratio of the sides is kept |
| Camera3d.AspectAgreesWhereDefined | source/LibFgBase/src/Fg3dCamera.cpp:61-70 | the corrected aspect equals the as-written one on every viewport other than (0,0) |
| Camera3d.EwFromBounds | source/LibFgBase/src/Fg3dCamera.cpp:88-90 | FgAffineCw2D(domain, range) maps each axis's low and high domain bounds to its low and high range bounds |
| Camera3d.ComposeEwApplies | source/LibFgBase/src/Fg3dCamera.cpp:26 | the product of two per-axis maps applies the right one first, then the left one |
| Camera3d.PreTranslatedApplies | source/LibFgBase/src/Fg3dCamera.cpp:80 | FgAffine3D(v, M) maps x to M(x + v) |
| Camera3d.ComposeApplies | source/LibFgBase/src/Fg3dCamera.cpp:80 | the product of two affine transforms applies the right one first, then the left one |
| Camera3d.Modelview | source/LibFgBase/src/Fg3dCamera.cpp:78-80 | every point x goes to pose(x - centre) + trans: the model is rotated by the pose about the bounds centre, and the centre lands exactly on trans |
| Camera3d.TangentToUnit | source/LibFgBase/src/Fg3dCamera.cpp:87-90 | itcsToIucs maps -halfFovItcs to (0,0), +halfFovItcs to (1,1) and the view axis to (0.5,0.5) |
| Camera3d.Resolve | source/LibFgBase/src/Fg3dCamera.cpp:48-77 | the resolved scalars are consistent: positive tangent and aspect, a near plane in front of the eye and behind the centre, a far plane 2.4 half sizes beyond the near plane; the aspect is `Aspect`, so a (0,0) viewport gets (1,1) as intended (as written it divides by zero, see Findings) |
| Camera3d.AssembleCamera | source/LibFgBase/src/Fg3dCamera.cpp:78-91 | the camera has a symmetric frustum whose side planes pass through the tangents +-aspect*halfFovMaxItcs at the near plane; a modelview that rotates every point by the pose about the bounds centre and places the centre at the panned position at depth zCentre; and the tangent range mapped onto the unit square |
| Camera3d.NearFrustum | source/LibFgBase/src/Fg3dCamera.cpp:81-86 | the frustum is symmetric, its sides are the near half width times the aspect (so they pass through +-aspect*halfFovMaxItcs at the near plane), and its near and far planes are znear and zfar |
| Camera3d.TangentRange | source/LibFgBase/src/Fg3dCamera.cpp:87-90 | itcsToIucs maps -aspect*halfFovMaxItcs to (0,0), +aspect*halfFovMaxItcs to (1,1) and the view axis to (0.5,0.5) |
| Camera3d.ResolveCamera | source/LibFgBase/src/Fg3dCamera.cpp:44-92 | Fg3dCameraParams::camera frames the model as AssembleCamera states (frustum, pose about the bounds centre, tangent map), for the scalars Resolve derives and the given pose; for a (0,0) viewport this is the intended aspect (1,1), not the as-written division by zero (see Findings) |
| Camera3d.MulMM44Applies | source/LibFgBase/src/Fg3dCamera.cpp:41 | a 4x4 matrix product applies the right factor first, then the left one |
| Camera3d.AsHomogeneousApplies | source/LibFgBase/src/Fg3dCamera.cpp:41 | asHomogenous() acts on homogeneous points as the affine transform acts on points |
| Camera3d.ItcsToIpcsApplies | source/LibFgBase/src/Fg3dCamera.cpp:25-26 | itcsToIpcs is itcsToIucs followed by a stretch of the unit square over the pixel rectangle |
| Camera3d.EyeToPixelApplies | source/LibFgBase/src/Fg3dCamera.cpp:27-40 | with the offsets in the last column, an eye point goes to (sx*x - tx*z, -sy*y - ty*z, w, -z) |
| Camera3d.EyeToPixelAsWrittenApplies | source/LibFgBase/src/Fg3dCamera.cpp:27-40 | with the offsets written through cr(0,3) and cr(1,3), they land in the w row instead |
| Camera3d.ToIpcsHIntended | source/LibFgBase/src/Fg3dCamera.cpp:22-42 | toIpcsH as intended, with the pixel offsets in column 3; its action is stated by ToIpcsHIntendedProjects |
| Camera3d.ToIpcsHAsWritten | source/LibFgBase/src/Fg3dCamera.cpp:22-42 | toIpcsH exactly as written, offsets through cr(0,3) and cr(1,3); its action is stated by ToIpcsHAsWrittenProjects |
| Camera3d.ToIpcsHIntendedProjects | source/LibFgBase/src/Fg3dCamera.cpp:22-42 | as intended (not as written, see Findings), toIpcsH of an object point has w = -z_eye, and x, y are the tangent-to-pixel map scaled by w |
| Camera3d.ToIpcsHIntendedPerspective | source/LibFgBase/src/Fg3dCamera.cpp:22-42 | as intended, for a point in front of the camera, dividing by w gives the pixel of its image tangents (x/-z, -y/-z) |
| Camera3d.ViewAxisLandsAtImageCentre | source/LibFgBase/src/Fg3dCamera.cpp:22-42 | as intended, a point on the viewing axis projects onto the centre of the image |
| Camera3d.BoundsCentreLandsAtImageCentre | source/LibFgBase/src/Fg3dCamera.cpp:44-92 | with toIpcsH as intended and without panning, the camera draws the bounds centre at the centre of the image |
| Camera3d.ToIpcsHAsWrittenProjects | source/LibFgBase/src/Fg3dCamera.cpp:33-35 | as written, the pixel offsets are added to w, not to x and y |
| Camera3d.AsWrittenViewAxisLandsAtOrigin | source/LibFgBase/src/Fg3dCamera.cpp:33-35 | as written, a point on the viewing axis projects onto pixel (0,0), never onto the image centre of a viewport of nonzero width |
| StdSet.Contains | source/LibFgBase/src/FgStdSet.hpp:42-46 | fgContains: find locates v exactly when v is in the set; the loops below test membership through it |
| StdSet.ContainsAny | source/LibFgBase/src/FgStdSet.hpp:48-57 | true exactly when the two sets share an element; false when s1 is empty |
| StdSet.ContainsAll | source/LibFgBase/src/FgStdSet.hpp:59-68 | true exactly when s1 is a subset of s0; true when s1 is empty |
| StdSet.Union | source/LibFgBase/src/FgStdSet.hpp:80-88 | the result contains both arguments and nothing else |
| StdSet.Insert | source/LibFgBase/src/FgStdSet.hpp:140-147 | the result contains v and the old set, and nothing else |
| StdSet.Intersection | source/LibFgBase/src/FgStdSet.hpp:90-101 | an element is kept exactly when both sets hold it |
| StdSet.Minus | source/LibFgBase/src/FgStdSet.hpp:111-121 | an element is kept exactly when lhs holds it and rhs does not |
| StdSet.SetVar.InsertAll | source/LibFgBase/src/FgStdSet.hpp:73 | inserting a set's range adds exactly its elements |
| StdSet.SetVar.InsertSeq | source/LibFgBase/src/FgStdSet.hpp:78 | inserting a vector's range adds exactly the elements of the vector |
| StdSet.SetVar.Subtract | source/LibFgBase/src/FgStdSet.hpp:133-137 | erasing every found element of rhs leaves exactly the old set minus rhs |
| StdSet.UnionInPlace | source/LibFgBase/src/FgStdSet.hpp:70-73 | s0 becomes its old contents plus s1 |
| StdSet.UnionInPlaceSeq | source/LibFgBase/src/FgStdSet.hpp:75-78 | s0 becomes its old contents plus the elements of the vector |
| StdSet.Plus | source/LibFgBase/src/FgStdSet.hpp:103-109 | operator+ returns the union of its arguments |
| StdSet.PlusAssign | source/LibFgBase/src/FgStdSet.hpp:123-127 | operator+= makes l the union of its old contents and r |
| StdSet.MinusAssign | source/LibFgBase/src/FgStdSet.hpp:129-138 | operator-= removes exactly the elements of rhs; nothing is added |
| StdSet.SetToVec | source/LibFgBase/src/FgStdSet.hpp:29-34 | the vector holds exactly the set's elements, one entry per element |
| StdSet.SetToVecIncreasing | source/LibFgBase/src/FgStdSet.hpp:29-34 | the vector lists the elements in strictly increasing order, as std::set iterates them |
| StdSet.VecToSet | source/LibFgBase/src/FgStdSet.hpp:36-40 | the set holds exactly the vector's elements and is no larger than the vector |
| StdSet.VecToSetOfSetToVec | source/LibFgBase/src/FgStdSet.hpp:29-40 | converting a set to a vector and back gives the same set |
| StdSet.SetToVecOfVecToSet | source/LibFgBase/src/FgStdSet.hpp:29-40 | a strictly increasing vector survives the round trip through a set unchanged |
| Fgmesh.WriteFacetInds | source/LibFgBase/src/Fg3dMeshFgmesh.cpp:32-38 | fgWritep(FacetInds): the position indices, then the UV indices, each as a vector; undone by ReadFacetInds (FacetIndsRoundTrip) |
| Fgmesh.ReadFacetInds | source/LibFgBase/src/Fg3dMeshFgmesh.cpp:24-30 | fgReadp(FacetInds): reads the two vectors in the order written; fails where a read fails |
| Fgmesh.WriteSurfPoint | source/LibFgBase/src/Fg3dMeshFgmesh.cpp:48-54 | fgWritep(SurfPoint): triangle index, weights, label |
| Fgmesh.ReadSurfPoint | source/LibFgBase/src/Fg3dMeshFgmesh.cpp:40-46 | fgReadp(SurfPoint): the three fields in the order written; undoes WriteSurfPoint (SurfPointRoundTrip) |
| Fgmesh.WriteSurf | source/LibFgBase/src/Fg3dMeshFgmesh.cpp:65-72 | fgWritep(Surf): name, triangles, quads, surface points |
| Fgmesh.ReadSurf | source/LibFgBase/src/Fg3dMeshFgmesh.cpp:56-63 | fgReadp(Surf): the four fields in the order written; undoes WriteSurf (SurfRoundTrip) |
| Fgmesh.WriteMarkedVert | source/LibFgBase/src/Fg3dMeshFgmesh.cpp:81-86 | fgWritep(MarkedVert): index, then label |
| Fgmesh.ReadMarkedVert | source/LibFgBase/src/Fg3dMeshFgmesh.cpp:74-79 | fgReadp(MarkedVert): index, then label; undoes WriteMarkedVert (MarkedVertRoundTrip) |
| Fgmesh.WriteMorph | source/LibFgBase/src/Fg3dMeshFgmesh.cpp:95-100 | fgWritep(Morph): name, then vertices |
| Fgmesh.ReadMorph | source/LibFgBase/src/Fg3dMeshFgmesh.cpp:88-93 | fgReadp(Morph): name, then vertices; undoes WriteMorph (MorphRoundTrip) |
| Fgmesh.WriteIndexedMorph | source/LibFgBase/src/Fg3dMeshFgmesh.cpp:110-116 | fgWritep(IndexedMorph): name, base indices, vertices |
| Fgmesh.ReadIndexedMorph | source/LibFgBase/src/Fg3dMeshFgmesh.cpp:102-108 | fgReadp(IndexedMorph): the three fields in the order written; undoes WriteIndexedMorph (IndexedMorphRoundTrip) |
| Fgmesh.WriteMesh | source/LibFgBase/src/Fg3dMeshFgmesh.cpp:129-138 | fgWritep(Mesh): vertices, UVs, surfaces, delta morphs, target morphs, marked vertices |
| Fgmesh.ReadMesh | source/LibFgBase/src/Fg3dMeshFgmesh.cpp:118-127 | fgReadp(Mesh): the six fields in the order written; undoes WriteMesh (MeshRoundTrip) |
| Fgmesh.SaveFgmesh | source/LibFgBase/src/Fg3dMeshFgmesh.cpp:151-157 | saveFgmesh: the header string "FgMesh01", then the mesh |
| Fgmesh.LoadFgmesh | source/LibFgBase/src/Fg3dMeshFgmesh.cpp:140-149 | loadFgmesh: refuses a file whose first string is not the header (LoadRejectsIffHeaderDiffers), else reads the mesh; gives back a saved mesh (SaveThenLoad) |
| Fgmesh.ElemsRoundTrip | source/LibFgBase/src/Fg3dMeshFgmesh.cpp:121-126 | reading back as many elements as were written gives them back in order, and leaves what followed |
| Fgmesh.VecRoundTrip | source/LibFgBase/src/Fg3dMeshFgmesh.cpp:121-137 | a vector field (count, then elements) reads back as written, and leaves what followed |
| Fgmesh.FacetIndsRoundTrip | source/LibFgBase/src/Fg3dMeshFgmesh.cpp:24-38 | FacetInds reads back as written (position indices, then UV indices) |
| Fgmesh.SurfPointRoundTrip | source/LibFgBase/src/Fg3dMeshFgmesh.cpp:40-54 | SurfPoint reads back as written (triangle index, weights, label) |
| Fgmesh.SurfPointCodecRoundTrips | source/LibFgBase/src/Fg3dMeshFgmesh.cpp:40-54 | the SurfPoint reader undoes the writer for every point and every following input |
| Fgmesh.SurfRoundTrip | source/LibFgBase/src/Fg3dMeshFgmesh.cpp:56-72 | Surf reads back as written (name, triangles, quads, surface points) |
| Fgmesh.SurfCodecRoundTrips | source/LibFgBase/src/Fg3dMeshFgmesh.cpp:56-72 | the Surf reader undoes the writer for every surface |
| Fgmesh.MarkedVertRoundTrip | source/LibFgBase/src/Fg3dMeshFgmesh.cpp:74-86 | MarkedVert reads back as written (index, label) |
| Fgmesh.MarkedVertCodecRoundTrips | source/LibFgBase/src/Fg3dMeshFgmesh.cpp:74-86 | the MarkedVert reader undoes the writer for every marked vertex |
| Fgmesh.MorphRoundTrip | source/LibFgBase/src/Fg3dMeshFgmesh.cpp:88-100 | Morph reads back as written (name, vertices) |
| Fgmesh.MorphCodecRoundTrips | source/LibFgBase/src/Fg3dMeshFgmesh.cpp:88-100 | the Morph reader undoes the writer for every morph |
| Fgmesh.IndexedMorphRoundTrip | source/LibFgBase/src/Fg3dMeshFgmesh.cpp:102-116 | IndexedMorph reads back as written (name, base indices, vertices) |
| Fgmesh.IndexedMorphCodecRoundTrips | source/LibFgBase/src/Fg3dMeshFgmesh.cpp:102-116 | the IndexedMorph reader undoes the writer for every indexed morph |
| Fgmesh.MeshRoundTrip | source/LibFgBase/src/Fg3dMeshFgmesh.cpp:118-138 | Mesh reads back as written (vertices, UVs, surfaces, delta morphs, target morphs, marked vertices) |
| Fgmesh.LoadRejectsIffHeaderDiffers | source/LibFgBase/src/Fg3dMeshFgmesh.cpp:145-146 | a load fails with "Not a valid FGMESH file" exactly when the first string reads but is not "FgMesh01" |
| Fgmesh.ForeignHeaderRejected | source/LibFgBase/src/Fg3dMeshFgmesh.cpp:145-146 | a file that starts with any other string is refused with that message |
| Fgmesh.SavedHeaderAccepted | source/LibFgBase/src/Fg3dMeshFgmesh.cpp:151-157 | a saved file starts with the header that the load checks for, so the load never refuses it as foreign |
| Fgmesh.SaveThenLoad | source/LibFgBase/src/Fg3dMeshFgmesh.cpp:140-157 | loading a saved file gives back the saved mesh, whatever bytes follow it |
| DepGraphDot.NatToString | source/LibFgBase/src/FgDepGraphUtils.cpp:40 | a link index prints as a nonempty string of decimal digits |
| DepGraphDot.NatToStringValue | source/LibFgBase/src/FgDepGraphUtils.cpp:40 | the printed digits denote the index |
| DepGraphDot.NatToStringInjective | source/LibFgBase/src/FgDepGraphUtils.cpp:40-46 | different links get different node names `L<ii>` |
| DepGraphDot.WriteParams | source/LibFgBase/src/FgDepGraphUtils.cpp:32-33 | the parameter loop appends one double-octagon node per parameter index, in order |
| DepGraphDot.WriteLink | source/LibFgBase/src/FgDepGraphUtils.cpp:40-46 | a kept link appends its oval node, then one edge per source, then one edge per sink |
| DepGraphDot.WriteLinks | source/LibFgBase/src/FgDepGraphUtils.cpp:34-47 | the link loop appends the text of every link in index order, with nothing for stubs |
| DepGraphDot.DepGraph2Dot | source/LibFgBase/src/FgDepGraphUtils.cpp:23-51 | the result is exactly the header, the parameter nodes, the links' text and the two closing braces |
| DepGraphDot.HeaderConcat | source/LibFgBase/src/FgDepGraphUtils.cpp:30-31 | the five header pieces run together into the header text with the graph label |
| DepGraphDot.FooterConcat | source/LibFgBase/src/FgDepGraphUtils.cpp:48-49 | the two footer pieces close the two braces the header opened |
| DepGraphDot.AllLinkLinesText | source/LibFgBase/src/FgDepGraphUtils.cpp:34-47 | the link pieces run together into the text the link loop writes |
| DepGraphDot.DotLinesText | source/LibFgBase/src/FgDepGraphUtils.cpp:23-51 | the entries of DotLines run together into exactly the text the writer produces |
| DepGraphDot.Framing | source/LibFgBase/src/FgDepGraphUtils.cpp:30-49 | the output starts with the `digraph DepGraph` header and ends with the two closing braces |
| DepGraphDot.ParamLinesInOrder | source/LibFgBase/src/FgDepGraphUtils.cpp:32-33 | entry 5 + k of DotLines is the node of paramInds[k]; it is line 5 + k of the text when the label and names hold no line break (DotLinesAreTextLines) |
| DepGraphDot.StubSkippedIff | source/LibFgBase/src/FgDepGraphUtils.cpp:37-39 | a link writes nothing exactly when it has one sink and that sink's label is "stub" |
| DepGraphDot.KeptLinkLines | source/LibFgBase/src/FgDepGraphUtils.cpp:40-46 | a kept link's pieces are its node, then its source edges in list order, then its sink edges in list order |
| DepGraphDot.LinkLinesAtOffset | source/LibFgBase/src/FgDepGraphUtils.cpp:34-47 | each link's pieces appear contiguously, in order, at that link's offset among the link pieces |
| DepGraphDot.LinksInIndexOrder | source/LibFgBase/src/FgDepGraphUtils.cpp:34 | all pieces of link i come before any piece of link j when i < j |
| DepGraphDot.LineCount | source/LibFgBase/src/FgDepGraphUtils.cpp:23-51 | DotLines has 5 header pieces, one per parameter, 1 + sources + sinks per kept link, and 2 footer pieces; with TextLineCount this is the number of lines of the text when the label and names hold no line break |
| DepGraphDot.LabelLineIff | source/LibFgBase/src/FgDepGraphUtils.cpp:30-31 | the header's label piece is one line of text exactly when the graph label has no line break |
| DepGraphDot.ParamLineIff | source/LibFgBase/src/FgDepGraphUtils.cpp:32-33 | a parameter node is one line of text exactly when that node's name has no line break |
| DepGraphDot.LinkNodeLineIsLine | source/LibFgBase/src/FgDepGraphUtils.cpp:40 | a link's oval node `L<ii>` is always one line of text |
| DepGraphDot.SourceLineIff | source/LibFgBase/src/FgDepGraphUtils.cpp:41-42 | an edge into a link is one line of text exactly when its source's name has no line break |
| DepGraphDot.SinkLineIff | source/LibFgBase/src/FgDepGraphUtils.cpp:43-44 | an edge out of a link is one line of text exactly when its sink's name has no line break |
| DepGraphDot.DotLinesAreTextLines | source/LibFgBase/src/FgDepGraphUtils.cpp:23-51 | with a label and node names free of line breaks, every entry of DotLines ends in a newline and holds no other, so it is one line of the text |
| DepGraphDot.TextLineCount | source/LibFgBase/src/FgDepGraphUtils.cpp:23-51 | with a label and node names free of line breaks, the text holds exactly as many newlines as DotLines has entries |

## Left out

- Floating point: the camera is modelled over exact reals, so IEEE rounding, NaN and infinity are not modelled. The "orthographic by precision" clamp is modelled only as the clamp of the FOV.
- WellFormed, HalfFovRad: require `fovMaxDeg < 180`. The source passes any FOV to `std::tan`, and for 180 degrees or more the half angle reaches pi/2 or beyond, where the tangent is undefined or not positive and the camera is meaningless. Such FOVs are outside the model.
- `exp`, `tan` and `pi` are left uninterpreted. Only positivity is assumed of them.
- `pose.asMatrix()`, the quaternion-to-matrix conversion, is not part of this model. The pose is any 3x3 matrix.
- OecsToItcsH: the source default-constructs `oecsToItcsH` and sets four entries. The model takes the entries it does not set to be zero.
- `operator<<` for sets writes to a stream, and is not modelled.
- UnionInPlace, UnionInPlaceSeq, PlusAssign, MinusAssign, SetVar.InsertAll, SetVar.Subtract: the set added or removed is passed as a value, so aliasing is not captured. A call whose two arguments are the same std::set (`s -= s`, `s += s`, `fgUnion_(s,s)`) is undefined in C++: `operator-=` erases the element its range-for stands on, and `insert(first,last)` is given iterators into the set itself. The model gives such calls the result that a copy of the argument would give.
- The visit order of the set loops is left open (`:|`). Every result is independent of it.
- SetToVec: is given for `set<int>` only, where std::set's iteration order is ascending. For other element types the order depends on `operator<`, which is not modelled.
- The conversion `std::set(v.begin(), v.end())` is `VecToSet` for any element type.
- The encodings of the primitive field types and of the element count in front of a vector are not part of this model. They are parameters assumed to read back what they write.
- The vector layout (a count, then the elements in order) is assumed from the serialisation library.
- VecRoundTrip: the element count is an unbounded `nat`. The 32-bit width of the count on disk is left to the count codec.
- File and stream I/O are left out. A file is its bytes.
- SaveThenLoad: `Mesh`, `Surf` and the other records hold only the fields the format writes. Fields that `fgWritep` does not write, such as a surface's material and albedo map, are not modelled, and a real load leaves them at their defaults. The round trip is a statement about the serialised fields only.
- `fgThrow` is the error value `NotFgmesh` carrying the message, and a failed stream read is `ReadFailed`.
- The file name argument of `fgThrow` is not modelled.
- `saveFgmesh(Meshes)` is not part of this model. It merges meshes with `mergeMeshes`, which lies outside the four files modelled here.
- `fgSaveFgmeshTest` is not part of this model. It is a test driver that reads and views files.
- `fgDotToPdf` and `fgDepGraph2Pdf` are not modelled. They run an external program.
- The link graph's accessors (`nodeData(..).name(..)`, `.label`, `linkSources`, `linkSinks`) are not part of this model. The graph is given as node-name and node-label functions and a list of links.
- DotLines: its entries are the pieces the writer appends. The source writes the graph label and node names as they are, so a name or label with a line break makes one piece span several lines of the text. The statements about lines of the text (`DotLinesAreTextLines`, `TextLineCount`) assume names and label without line breaks; the statements about entries hold for all names.
- `ostringstream` is a string that the writer appends to. Each of the two header appends is one append of the concatenated pieces, as in the source, and the loop bodies are helper methods (`WriteParams`, `WriteLinks`, `WriteLink`).

## Findings

| source | as written | input that shows it | evidently intended | confidence | as-written member | corrected member |
|---|---|---|---|---|---|---|
| source/LibFgBase/src/Fg3dCamera.cpp:34-35 | `itcsToIpcs3H.cr(0,3)` and `cr(1,3)` address column 0 and 1 of row 3, so the pixel offsets enter the w row of the homogeneous matrix | any camera and any viewport of nonzero width, with an object point on the viewing axis in front of the camera: after division by w it lands on pixel (0,0) | the offsets in column 3 (`rc(0,3)`, `rc(1,3)`), so that the viewing axis lands on the image centre | medium: not executed | Camera3d.AsWrittenViewAxisLandsAtOrigin | Camera3d.ViewAxisLandsAtImageCentre |
| source/LibFgBase/src/Fg3dCamera.cpp:61-70 | `imgDimMax` is taken before a zero dimension is replaced by (1,1) | imgDims = (0,0): imgDimMax is 0 and the aspect divides by zero, which the "Avoid NaNs" comment sets out to prevent | the aspect of the substituted (1,1) viewport, i.e. (1,1) | high: not executed | Camera3d.AspectAsWritten | Camera3d.AspectAgreesWhereDefined |

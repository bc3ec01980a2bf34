/**
 * The FGMESH binary mesh format of Fg3dMeshFgmesh.cpp.
 *
 * A stream is a sequence of bytes. Writing a record yields the bytes appended
 * to the output stream; reading a record consumes a prefix of the input and
 * returns the record with the input left over, or `None` where the C++ stream
 * read would fail. The encodings of the primitive field types (32-bit
 * unsigned integers, strings, fixed-size float and index vectors, and the
 * element count in front of every vector) live in code that is not part of
 * this model, so they are parameters (`Prims`), each assumed to read back
 * what it writes (`Sound`). Everything built on them here is proved to
 * round-trip from that assumption alone.
 */
module Fgmesh {
  import opened Wrappers
  import opened Seqs

  type Bytes = seq<bv8>

  /** An unsigned 32-bit integer. */
  newtype U32 = x: int | 0 <= x < 0x1_0000_0000

  /** An IEEE 754 single-precision value, as its bit pattern. */
  type Float32 = bv32

  datatype Vec2F = Vec2F(x: Float32, y: Float32)
  datatype Vec3F = Vec3F(x: Float32, y: Float32, z: Float32)
  datatype Vec3UI = Vec3UI(i0: U32, i1: U32, i2: U32)
  datatype Vec4UI = Vec4UI(i0: U32, i1: U32, i2: U32, i3: U32)

  /** Vertex indices of the facets of one kind, and the matching UV indices. */
  datatype FacetInds<I> = FacetInds(posInds: seq<I>, uvInds: seq<I>)

  /** A point on a surface: a facet, barycentric weights and a label. */
  datatype SurfPoint = SurfPoint(triEquivIdx: U32, weights: Vec3F, labelStr: string)

  datatype Surf = Surf(
    name: string,
    tris: FacetInds<Vec3UI>,
    quads: FacetInds<Vec4UI>,
    surfPoints: seq<SurfPoint>)

  datatype MarkedVert = MarkedVert(idx: U32, labelStr: string)

  /** A delta morph: an offset for every vertex. */
  datatype Morph = Morph(name: string, verts: seq<Vec3F>)

  /** A target morph: new positions for the listed vertices. */
  datatype IndexedMorph = IndexedMorph(name: string, baseInds: seq<U32>, verts: seq<Vec3F>)

  datatype Mesh = Mesh(
    verts: seq<Vec3F>,
    uvs: seq<Vec2F>,
    surfaces: seq<Surf>,
    deltaMorphs: seq<Morph>,
    targetMorphs: seq<IndexedMorph>,
    markedVerts: seq<MarkedVert>)

  /** A writer and the reader meant to undo it. */
  datatype Codec<!T> = Codec(enc: T -> Bytes, dec: Bytes -> Option<(T, Bytes)>)

  /** Reading what was written gives the value back and leaves what followed. */
  ghost predicate RoundTrips<T(!new)>(c: Codec<T>)
  {
    forall x: T, rest: Bytes {:trigger c.dec(c.enc(x) + rest)} :: c.dec(c.enc(x) + rest) == Some((x, rest))
  }

  /** The primitive codecs that the record serialisers are built from. */
  datatype Prims = Prims(
    count: Codec<nat>,
    u32: Codec<U32>,
    str: Codec<string>,
    vec2f: Codec<Vec2F>,
    vec3f: Codec<Vec3F>,
    vec3ui: Codec<Vec3UI>,
    vec4ui: Codec<Vec4UI>)

  ghost predicate Sound(p: Prims)
  {
    && RoundTrips(p.count)
    && RoundTrips(p.u32)
    && RoundTrips(p.str)
    && RoundTrips(p.vec2f)
    && RoundTrips(p.vec3f)
    && RoundTrips(p.vec3ui)
    && RoundTrips(p.vec4ui)
  }

  /** One use of a round-tripping codec. */
  lemma Decodes<T(!new)>(c: Codec<T>, x: T, rest: Bytes)
    requires RoundTrips(c)
    ensures c.dec(c.enc(x) + rest) == Some((x, rest))
  {
  }

  // ---------------------------------------------------------------------------
  // Vectors: the element count, then each element in order

  function WriteElems<T>(c: Codec<T>, xs: seq<T>): Bytes
  {
    if xs == [] then [] else c.enc(xs[0]) + WriteElems(c, xs[1..])
  }

  function ReadElems<T>(c: Codec<T>, n: nat, s: Bytes): Option<(seq<T>, Bytes)>
  {
    if n == 0 then Some(([], s))
    else
      match c.dec(s)
      case None => None
      case Some((x, s1)) =>
        match ReadElems(c, n - 1, s1)
        case None => None
        case Some((xs, s2)) => Some(([x] + xs, s2))
  }

  function WriteVec<T>(p: Prims, c: Codec<T>, xs: seq<T>): Bytes
  {
    p.count.enc(|xs|) + WriteElems(c, xs)
  }

  function ReadVec<T>(p: Prims, c: Codec<T>, s: Bytes): Option<(seq<T>, Bytes)>
  {
    match p.count.dec(s)
    case None => None
    case Some((n, s1)) => ReadElems(c, n, s1)
  }

  /** Reading as many elements as were written gives them back, in order. */
  lemma {:induction false} ElemsRoundTrip<T(!new)>(c: Codec<T>, xs: seq<T>, rest: Bytes)
    requires RoundTrips(c)
    ensures ReadElems(c, |xs|, WriteElems(c, xs) + rest) == Some((xs, rest))
    decreases |xs|
  {
    if xs == [] {
      assert WriteElems(c, xs) + rest == rest;
    } else {
      var tail := WriteElems(c, xs[1..]) + rest;
      assert WriteElems(c, xs) + rest == c.enc(xs[0]) + tail;
      Decodes(c, xs[0], tail);
      ElemsRoundTrip(c, xs[1..], rest);
      assert |xs[1..]| == |xs| - 1;
      assert [xs[0]] + xs[1..] == xs;
    }
  }

  lemma VecRoundTrip<T(!new)>(p: Prims, c: Codec<T>, xs: seq<T>, rest: Bytes)
    requires Sound(p) && RoundTrips(c)
    ensures ReadVec(p, c, WriteVec(p, c, xs) + rest) == Some((xs, rest))
  {
    var tail := WriteElems(c, xs) + rest;
    assert WriteVec(p, c, xs) + rest == p.count.enc(|xs|) + tail;
    Decodes(p.count, |xs|, tail);
    ElemsRoundTrip(c, xs, rest);
  }

  // ---------------------------------------------------------------------------
  // FacetInds: posInds then uvInds

  function WriteFacetInds<I>(p: Prims, ic: Codec<I>, fi: FacetInds<I>): Bytes
  {
    WriteVec(p, ic, fi.posInds) + WriteVec(p, ic, fi.uvInds)
  }

  function ReadFacetInds<I>(p: Prims, ic: Codec<I>, s: Bytes): Option<(FacetInds<I>, Bytes)>
  {
    match ReadVec(p, ic, s)
    case None => None
    case Some((pos, s1)) =>
      match ReadVec(p, ic, s1)
      case None => None
      case Some((uv, s2)) => Some((FacetInds(pos, uv), s2))
  }

  lemma FacetIndsRoundTrip<I(!new)>(p: Prims, ic: Codec<I>, fi: FacetInds<I>, rest: Bytes)
    requires Sound(p) && RoundTrips(ic)
    ensures ReadFacetInds(p, ic, WriteFacetInds(p, ic, fi) + rest) == Some((fi, rest))
  {
    var tail := WriteVec(p, ic, fi.uvInds) + rest;
    assert WriteFacetInds(p, ic, fi) + rest == WriteVec(p, ic, fi.posInds) + tail;
    VecRoundTrip(p, ic, fi.posInds, tail);
    VecRoundTrip(p, ic, fi.uvInds, rest);
  }

  // ---------------------------------------------------------------------------
  // SurfPoint: triEquivIdx, weights, label

  function WriteSurfPoint(p: Prims, sp: SurfPoint): Bytes
  {
    p.u32.enc(sp.triEquivIdx) + p.vec3f.enc(sp.weights) + p.str.enc(sp.labelStr)
  }

  function ReadSurfPoint(p: Prims, s: Bytes): Option<(SurfPoint, Bytes)>
  {
    match p.u32.dec(s)
    case None => None
    case Some((idx, s1)) =>
      match p.vec3f.dec(s1)
      case None => None
      case Some((weights, s2)) =>
        match p.str.dec(s2)
        case None => None
        case Some((lbl, s3)) => Some((SurfPoint(idx, weights, lbl), s3))
  }

  lemma SurfPointRoundTrip(p: Prims, sp: SurfPoint, rest: Bytes)
    requires Sound(p)
    ensures ReadSurfPoint(p, WriteSurfPoint(p, sp) + rest) == Some((sp, rest))
  {
    var t2 := p.str.enc(sp.labelStr) + rest;
    var t1 := p.vec3f.enc(sp.weights) + t2;
    assert WriteSurfPoint(p, sp) + rest == p.u32.enc(sp.triEquivIdx) + t1;
    Decodes(p.u32, sp.triEquivIdx, t1);
    Decodes(p.vec3f, sp.weights, t2);
    Decodes(p.str, sp.labelStr, rest);
  }

  function SurfPointCodec(p: Prims): Codec<SurfPoint>
  {
    Codec((sp: SurfPoint) => WriteSurfPoint(p, sp), (s: Bytes) => ReadSurfPoint(p, s))
  }

  lemma SurfPointCodecRoundTrips(p: Prims)
    requires Sound(p)
    ensures RoundTrips(SurfPointCodec(p))
  {
    forall sp: SurfPoint, rest: Bytes
      ensures SurfPointCodec(p).dec(SurfPointCodec(p).enc(sp) + rest) == Some((sp, rest))
    {
      SurfPointRoundTrip(p, sp, rest);
    }
  }

  // ---------------------------------------------------------------------------
  // Surf: name, tris, quads, surfPoints

  function WriteSurf(p: Prims, s: Surf): Bytes
  {
    p.str.enc(s.name)
      + (WriteFacetInds(p, p.vec3ui, s.tris)
      + (WriteFacetInds(p, p.vec4ui, s.quads)
      + WriteVec(p, SurfPointCodec(p), s.surfPoints)))
  }

  function ReadSurf(p: Prims, s: Bytes): Option<(Surf, Bytes)>
  {
    match p.str.dec(s)
    case None => None
    case Some((name, s1)) =>
      match ReadFacetInds(p, p.vec3ui, s1)
      case None => None
      case Some((tris, s2)) =>
        match ReadFacetInds(p, p.vec4ui, s2)
        case None => None
        case Some((quads, s3)) =>
          match ReadVec(p, SurfPointCodec(p), s3)
          case None => None
          case Some((points, s4)) => Some((Surf(name, tris, quads, points), s4))
  }

  lemma SurfRoundTrip(p: Prims, surf: Surf, rest: Bytes)
    requires Sound(p)
    ensures ReadSurf(p, WriteSurf(p, surf) + rest) == Some((surf, rest))
  {
    var w1 := p.str.enc(surf.name);
    var w2 := WriteFacetInds(p, p.vec3ui, surf.tris);
    var w3 := WriteFacetInds(p, p.vec4ui, surf.quads);
    var w4 := WriteVec(p, SurfPointCodec(p), surf.surfPoints);
    Assoc(w1, w2 + (w3 + w4), rest);
    Assoc(w2, w3 + w4, rest);
    Assoc(w3, w4, rest);
    Decodes(p.str, surf.name, w2 + (w3 + w4) + rest);
    FacetIndsRoundTrip(p, p.vec3ui, surf.tris, w3 + w4 + rest);
    FacetIndsRoundTrip(p, p.vec4ui, surf.quads, w4 + rest);
    SurfPointCodecRoundTrips(p);
    VecRoundTrip(p, SurfPointCodec(p), surf.surfPoints, rest);
  }

  function SurfCodec(p: Prims): Codec<Surf>
  {
    Codec((s: Surf) => WriteSurf(p, s), (b: Bytes) => ReadSurf(p, b))
  }

  lemma SurfCodecRoundTrips(p: Prims)
    requires Sound(p)
    ensures RoundTrips(SurfCodec(p))
  {
    forall surf: Surf, rest: Bytes
      ensures SurfCodec(p).dec(SurfCodec(p).enc(surf) + rest) == Some((surf, rest))
    {
      SurfRoundTrip(p, surf, rest);
    }
  }

  // ---------------------------------------------------------------------------
  // MarkedVert: idx, label

  function WriteMarkedVert(p: Prims, m: MarkedVert): Bytes
  {
    p.u32.enc(m.idx) + p.str.enc(m.labelStr)
  }

  function ReadMarkedVert(p: Prims, s: Bytes): Option<(MarkedVert, Bytes)>
  {
    match p.u32.dec(s)
    case None => None
    case Some((idx, s1)) =>
      match p.str.dec(s1)
      case None => None
      case Some((lbl, s2)) => Some((MarkedVert(idx, lbl), s2))
  }

  lemma MarkedVertRoundTrip(p: Prims, m: MarkedVert, rest: Bytes)
    requires Sound(p)
    ensures ReadMarkedVert(p, WriteMarkedVert(p, m) + rest) == Some((m, rest))
  {
    var t1 := p.str.enc(m.labelStr) + rest;
    assert WriteMarkedVert(p, m) + rest == p.u32.enc(m.idx) + t1;
    Decodes(p.u32, m.idx, t1);
    Decodes(p.str, m.labelStr, rest);
  }

  function MarkedVertCodec(p: Prims): Codec<MarkedVert>
  {
    Codec((m: MarkedVert) => WriteMarkedVert(p, m), (s: Bytes) => ReadMarkedVert(p, s))
  }

  lemma MarkedVertCodecRoundTrips(p: Prims)
    requires Sound(p)
    ensures RoundTrips(MarkedVertCodec(p))
  {
    forall m: MarkedVert, rest: Bytes
      ensures MarkedVertCodec(p).dec(MarkedVertCodec(p).enc(m) + rest) == Some((m, rest))
    {
      MarkedVertRoundTrip(p, m, rest);
    }
  }

  // ---------------------------------------------------------------------------
  // Morph: name, verts

  function WriteMorph(p: Prims, m: Morph): Bytes
  {
    p.str.enc(m.name) + WriteVec(p, p.vec3f, m.verts)
  }

  function ReadMorph(p: Prims, s: Bytes): Option<(Morph, Bytes)>
  {
    match p.str.dec(s)
    case None => None
    case Some((name, s1)) =>
      match ReadVec(p, p.vec3f, s1)
      case None => None
      case Some((verts, s2)) => Some((Morph(name, verts), s2))
  }

  lemma MorphRoundTrip(p: Prims, m: Morph, rest: Bytes)
    requires Sound(p)
    ensures ReadMorph(p, WriteMorph(p, m) + rest) == Some((m, rest))
  {
    var t1 := WriteVec(p, p.vec3f, m.verts) + rest;
    assert WriteMorph(p, m) + rest == p.str.enc(m.name) + t1;
    Decodes(p.str, m.name, t1);
    VecRoundTrip(p, p.vec3f, m.verts, rest);
  }

  function MorphCodec(p: Prims): Codec<Morph>
  {
    Codec((m: Morph) => WriteMorph(p, m), (s: Bytes) => ReadMorph(p, s))
  }

  lemma MorphCodecRoundTrips(p: Prims)
    requires Sound(p)
    ensures RoundTrips(MorphCodec(p))
  {
    forall m: Morph, rest: Bytes
      ensures MorphCodec(p).dec(MorphCodec(p).enc(m) + rest) == Some((m, rest))
    {
      MorphRoundTrip(p, m, rest);
    }
  }

  // ---------------------------------------------------------------------------
  // IndexedMorph: name, baseInds, verts

  function WriteIndexedMorph(p: Prims, m: IndexedMorph): Bytes
  {
    p.str.enc(m.name) + WriteVec(p, p.u32, m.baseInds) + WriteVec(p, p.vec3f, m.verts)
  }

  function ReadIndexedMorph(p: Prims, s: Bytes): Option<(IndexedMorph, Bytes)>
  {
    match p.str.dec(s)
    case None => None
    case Some((name, s1)) =>
      match ReadVec(p, p.u32, s1)
      case None => None
      case Some((inds, s2)) =>
        match ReadVec(p, p.vec3f, s2)
        case None => None
        case Some((verts, s3)) => Some((IndexedMorph(name, inds, verts), s3))
  }

  lemma IndexedMorphRoundTrip(p: Prims, m: IndexedMorph, rest: Bytes)
    requires Sound(p)
    ensures ReadIndexedMorph(p, WriteIndexedMorph(p, m) + rest) == Some((m, rest))
  {
    var t2 := WriteVec(p, p.vec3f, m.verts) + rest;
    var t1 := WriteVec(p, p.u32, m.baseInds) + t2;
    assert WriteIndexedMorph(p, m) + rest == p.str.enc(m.name) + t1;
    Decodes(p.str, m.name, t1);
    VecRoundTrip(p, p.u32, m.baseInds, t2);
    VecRoundTrip(p, p.vec3f, m.verts, rest);
  }

  function IndexedMorphCodec(p: Prims): Codec<IndexedMorph>
  {
    Codec((m: IndexedMorph) => WriteIndexedMorph(p, m), (s: Bytes) => ReadIndexedMorph(p, s))
  }

  lemma IndexedMorphCodecRoundTrips(p: Prims)
    requires Sound(p)
    ensures RoundTrips(IndexedMorphCodec(p))
  {
    forall m: IndexedMorph, rest: Bytes
      ensures IndexedMorphCodec(p).dec(IndexedMorphCodec(p).enc(m) + rest) == Some((m, rest))
    {
      IndexedMorphRoundTrip(p, m, rest);
    }
  }

  // ---------------------------------------------------------------------------
  // Mesh: verts, uvs, surfaces, deltaMorphs, targetMorphs, markedVerts

  function WriteMesh(p: Prims, mesh: Mesh): Bytes
  {
    WriteVec(p, p.vec3f, mesh.verts)
      + (WriteVec(p, p.vec2f, mesh.uvs)
      + (WriteVec(p, SurfCodec(p), mesh.surfaces)
      + (WriteVec(p, MorphCodec(p), mesh.deltaMorphs)
      + (WriteVec(p, IndexedMorphCodec(p), mesh.targetMorphs)
      + WriteVec(p, MarkedVertCodec(p), mesh.markedVerts)))))
  }

  function ReadMesh(p: Prims, s: Bytes): Option<(Mesh, Bytes)>
  {
    match ReadVec(p, p.vec3f, s)
    case None => None
    case Some((verts, s1)) =>
      match ReadVec(p, p.vec2f, s1)
      case None => None
      case Some((uvs, s2)) =>
        match ReadVec(p, SurfCodec(p), s2)
        case None => None
        case Some((surfaces, s3)) =>
          match ReadVec(p, MorphCodec(p), s3)
          case None => None
          case Some((deltas, s4)) =>
            match ReadVec(p, IndexedMorphCodec(p), s4)
            case None => None
            case Some((targets, s5)) =>
              match ReadVec(p, MarkedVertCodec(p), s5)
              case None => None
              case Some((marked, s6)) => Some((Mesh(verts, uvs, surfaces, deltas, targets, marked), s6))
  }

  lemma MeshRoundTrip(p: Prims, mesh: Mesh, rest: Bytes)
    requires Sound(p)
    ensures ReadMesh(p, WriteMesh(p, mesh) + rest) == Some((mesh, rest))
  {
    var w1 := WriteVec(p, p.vec3f, mesh.verts);
    var w2 := WriteVec(p, p.vec2f, mesh.uvs);
    var w3 := WriteVec(p, SurfCodec(p), mesh.surfaces);
    var w4 := WriteVec(p, MorphCodec(p), mesh.deltaMorphs);
    var w5 := WriteVec(p, IndexedMorphCodec(p), mesh.targetMorphs);
    var w6 := WriteVec(p, MarkedVertCodec(p), mesh.markedVerts);
    var x4 := w5 + w6;
    var x3 := w4 + x4;
    var x2 := w3 + x3;
    var x1 := w2 + x2;
    Assoc(w1, x1, rest);
    Assoc(w2, x2, rest);
    Assoc(w3, x3, rest);
    Assoc(w4, x4, rest);
    Assoc(w5, w6, rest);
    VecRoundTrip(p, p.vec3f, mesh.verts, x1 + rest);
    VecRoundTrip(p, p.vec2f, mesh.uvs, x2 + rest);
    SurfCodecRoundTrips(p);
    VecRoundTrip(p, SurfCodec(p), mesh.surfaces, x3 + rest);
    MorphCodecRoundTrips(p);
    VecRoundTrip(p, MorphCodec(p), mesh.deltaMorphs, x4 + rest);
    IndexedMorphCodecRoundTrips(p);
    VecRoundTrip(p, IndexedMorphCodec(p), mesh.targetMorphs, w6 + rest);
    MarkedVertCodecRoundTrips(p);
    VecRoundTrip(p, MarkedVertCodec(p), mesh.markedVerts, rest);
  }

  // ---------------------------------------------------------------------------
  // Files: the header string, then the mesh

  const MagicHeader: string := "FgMesh01"

  /** Why a load fails: the stream ran out or held something else, or the header is wrong. */
  datatype LoadError = ReadFailed | NotFgmesh(message: string)

  const NotFgmeshMessage: string := "Not a valid FGMESH file"

  /** saveFgmesh: the file's bytes. */
  function SaveFgmesh(p: Prims, mesh: Mesh): Bytes
  {
    p.str.enc(MagicHeader) + WriteMesh(p, mesh)
  }

  /** loadFgmesh: bytes after the mesh are ignored. */
  function LoadFgmesh(p: Prims, file: Bytes): Result<Mesh, LoadError>
  {
    match p.str.dec(file)
    case None => Err(ReadFailed)
    case Some((header, body)) =>
      if header != MagicHeader then Err(NotFgmesh(NotFgmeshMessage))
      else
        match ReadMesh(p, body)
        case None => Err(ReadFailed)
        case Some((mesh, _)) => Ok(mesh)
  }

  /** The load refuses a file as not FGMESH exactly when its first string is not the header. */
  lemma LoadRejectsIffHeaderDiffers(p: Prims, file: Bytes)
    ensures LoadFgmesh(p, file) == Err(NotFgmesh(NotFgmeshMessage))
        <==> p.str.dec(file).Some? && p.str.dec(file).value.0 != MagicHeader
  {
  }

  /** A file written with any other first string is refused with the header message. */
  lemma ForeignHeaderRejected(p: Prims, header: string, body: Bytes)
    requires Sound(p)
    requires header != MagicHeader
    ensures LoadFgmesh(p, p.str.enc(header) + body) == Err(NotFgmesh(NotFgmeshMessage))
  {
    Decodes(p.str, header, body);
  }

  /** What saveFgmesh writes starts with the header that loadFgmesh checks for. */
  lemma SavedHeaderAccepted(p: Prims, mesh: Mesh, rest: Bytes)
    requires Sound(p)
    ensures p.str.dec(SaveFgmesh(p, mesh) + rest) == Some((MagicHeader, WriteMesh(p, mesh) + rest))
    ensures !LoadFgmesh(p, SaveFgmesh(p, mesh) + rest).Err?
        || LoadFgmesh(p, SaveFgmesh(p, mesh) + rest).error != NotFgmesh(NotFgmeshMessage)
  {
    assert SaveFgmesh(p, mesh) + rest == p.str.enc(MagicHeader) + (WriteMesh(p, mesh) + rest);
    Decodes(p.str, MagicHeader, WriteMesh(p, mesh) + rest);
  }

  /** Loading a saved file, whatever follows it, gives the saved mesh. */
  lemma SaveThenLoad(p: Prims, mesh: Mesh, rest: Bytes)
    requires Sound(p)
    ensures LoadFgmesh(p, SaveFgmesh(p, mesh) + rest) == Ok(mesh)
  {
    SavedHeaderAccepted(p, mesh, rest);
    MeshRoundTrip(p, mesh, rest);
  }
}

// The pure and bookkeeping parts of demakein/cgal.py: rounding, the 3x3
// transform, extents, and the vertex merging and triangle filtering that
// create() and load_stl() do before handing a mesh to the CGAL library.

module Cgal {
  import opened Common

  type Point3 = (real, real, real)
  type IntPoint = (int, int, int)

  /** int_round(v) = int(floor(v + 0.5)) is Common.RoundHalfUp: it is the
      nearest integer, and exact on integers. */
  lemma IntRoundNearest(v: real, k: int)
    ensures RoundHalfUp(k as real) == k
    ensures -0.5 < (RoundHalfUp(v) as real) - v <= 0.5
  {
    var r := RoundHalfUp(k as real);
    assert r as real <= k as real + 0.5 ==> r <= k;
    assert k as real + 0.5 < r as real + 1.0 ==> k <= r;
  }

  /** A well-formed 3x3 matrix. */
  predicate IsMatrix3(m: seq<seq<real>>)
  {
    |m| == 3 && forall i :: 0 <= i < 3 ==> |m[i]| == 3
  }

  function Row(m: seq<seq<real>>, i: nat, p: Point3): real
    requires IsMatrix3(m) && i < 3
  {
    m[i][0] * p.0 + m[i][1] * p.1 + m[i][2] * p.2
  }

  /** transform_point_3(matrix, point): the matrix-vector product. */
  function TransformPoint3(m: seq<seq<real>>, p: Point3): (r: Point3)
    requires IsMatrix3(m)
  {
    (Row(m, 0, p), Row(m, 1, p), Row(m, 2, p))
  }

  function Add3(a: Point3, b: Point3): Point3
  {
    (a.0 + b.0, a.1 + b.1, a.2 + b.2)
  }

  /** The transform is linear, and the identity matrix leaves points alone. */
  lemma TransformLinear(m: seq<seq<real>>, a: Point3, b: Point3)
    requires IsMatrix3(m)
    ensures TransformPoint3(m, Add3(a, b)) == Add3(TransformPoint3(m, a), TransformPoint3(m, b))
    ensures TransformPoint3([[1.0, 0.0, 0.0], [0.0, 1.0, 0.0], [0.0, 0.0, 1.0]], a) == a
  {
    RowAdd(m, 0, a, b);
    RowAdd(m, 1, a, b);
    RowAdd(m, 2, a, b);
    var id := [[1.0, 0.0, 0.0], [0.0, 1.0, 0.0], [0.0, 0.0, 1.0]];
    assert Row(id, 0, a) == a.0 && Row(id, 1, a) == a.1 && Row(id, 2, a) == a.2;
  }

  lemma RowAdd(m: seq<seq<real>>, i: nat, a: Point3, b: Point3)
    requires IsMatrix3(m) && i < 3
    ensures Row(m, i, Add3(a, b)) == Row(m, i, a) + Row(m, i, b)
  {
    MulAdd(m[i][0], a.0, b.0);
    MulAdd(m[i][1], a.1, b.1);
    MulAdd(m[i][2], a.2, b.2);
  }

  lemma MulAdd(c: real, x: real, y: real)
    ensures c * (x + y) == c * x + c * y
  { }

  /** shape.Limits: per-axis bounds. */
  datatype Limits = Limits(xMin: real, xMax: real, yMin: real, yMax: real, zMin: real, zMax: real)

  /** extent_3(points): the per-axis minimum and maximum of the points. */
  method Extent3(points: seq<Point3>) returns (r: Limits)
    requires |points| > 0
    ensures forall k :: 0 <= k < |points| ==>
      r.xMin <= points[k].0 <= r.xMax && r.yMin <= points[k].1 <= r.yMax && r.zMin <= points[k].2 <= r.zMax
    ensures exists k :: 0 <= k < |points| && points[k].0 == r.xMin
    ensures exists k :: 0 <= k < |points| && points[k].0 == r.xMax
    ensures exists k :: 0 <= k < |points| && points[k].1 == r.yMin
    ensures exists k :: 0 <= k < |points| && points[k].1 == r.yMax
    ensures exists k :: 0 <= k < |points| && points[k].2 == r.zMin
    ensures exists k :: 0 <= k < |points| && points[k].2 == r.zMax
  {
    var xs, ys, zs := [], [], [];
    for i := 0 to |points|
      invariant |xs| == |ys| == |zs| == i
      invariant forall k :: 0 <= k < i ==> xs[k] == points[k].0 && ys[k] == points[k].1 && zs[k] == points[k].2
    {
      xs := xs + [points[i].0];
      ys := ys + [points[i].1];
      zs := zs + [points[i].2];
    }
    r := Limits(MinSeq(xs), MaxSeq(xs), MinSeq(ys), MaxSeq(ys), MinSeq(zs), MaxSeq(zs));
  }

  /** The vertex rounded to the integer grid create() hands to CGAL. */
  function RoundPoint(v: Point3, accuracy: real): IntPoint
  {
    (RoundHalfUp(v.0 * accuracy), RoundHalfUp(v.1 * accuracy), RoundHalfUp(v.2 * accuracy))
  }

  /** No value occurs twice. */
  predicate Distinct<T(==)>(s: seq<T>)
  {
    forall i, j :: 0 <= i < j < |s| ==> s[i] != s[j]
  }

  /** The distinct rounded points of the first n vertices, in the order of
      their first appearance. */
  function MergedPoints(verts: seq<Point3>, accuracy: real, n: nat): (r: seq<IntPoint>)
    requires n <= |verts|
    ensures Distinct(r) && |r| <= n
  {
    if n == 0 then []
    else
      var f := MergedPoints(verts, accuracy, n - 1);
      var p := RoundPoint(verts[n - 1], accuracy);
      if p in f then f else f + [p]
  }

  /** A point is merged in exactly when some vertex rounds to it. */
  lemma {:induction false} MergedPointsMembers(verts: seq<Point3>, accuracy: real, n: nat, q: IntPoint)
    requires n <= |verts|
    ensures q in MergedPoints(verts, accuracy, n) <==> exists i :: 0 <= i < n && RoundPoint(verts[i], accuracy) == q
  {
    if n > 0 {
      var f, p := MergedPoints(verts, accuracy, n - 1), RoundPoint(verts[n - 1], accuracy);
      MergedPointsMembers(verts, accuracy, n - 1, q);
      assert q in MergedPoints(verts, accuracy, n) <==> q in f || q == p;
      if exists i :: 0 <= i < n && RoundPoint(verts[i], accuracy) == q {
        var i :| 0 <= i < n && RoundPoint(verts[i], accuracy) == q;
        if i < n - 1 {
          assert q in f;
        }
      }
    }
  }

  /** The vertex loop of create(): each vertex is rounded; a rounded point not
      seen before gets the next index, a repeated one counts as a merge. */
  method MergeVertices(verts: seq<Point3>, accuracy: real)
    returns (remap: seq<nat>, points: seq<IntPoint>, nMerges: nat, ghost firsts: seq<nat>)
    ensures |remap| == |verts| && Distinct(points)
    ensures points == MergedPoints(verts, accuracy, |verts|)
    ensures forall i :: 0 <= i < |verts| ==>
      remap[i] < |points| && points[remap[i]] == RoundPoint(verts[i], accuracy)
    ensures nMerges + |points| == |verts|
    ensures |firsts| == |points|
    ensures forall k :: 0 <= k < |points| ==>
      firsts[k] < |verts| && remap[firsts[k]] == k && forall i :: 0 <= i < firsts[k] ==> remap[i] < k
  {
    var vertHash: map<IntPoint, nat> := map[];
    remap, points, nMerges, firsts := [], [], 0, [];
    for v := 0 to |verts|
      invariant Merging(verts, accuracy, v, vertHash, remap, points, nMerges, firsts)
    {
      var key := RoundPoint(verts[v], accuracy);
      MergingStep(verts, accuracy, v, vertHash, remap, points, nMerges, firsts);
      if key !in vertHash {
        remap := remap + [|points|];
        vertHash := vertHash[key := |points|];
        points := points + [key];
        firsts := firsts + [v];
      } else {
        remap := remap + [vertHash[key]];
        nMerges := nMerges + 1;
      }
    }
  }

  /** The loop state of MergeVertices after the first v vertices: vertHash
      indexes exactly the points, the points are the merged points so far,
      every vertex seen maps to its rounded point, and firsts holds the
      first vertex of each point. */
  ghost predicate Merging(verts: seq<Point3>, accuracy: real, v: nat, vertHash: map<IntPoint, nat>,
                          remap: seq<nat>, points: seq<IntPoint>, nMerges: nat, firsts: seq<nat>)
  {
    && v <= |verts| && |remap| == v && nMerges + |points| == v
    && points == MergedPoints(verts, accuracy, v)
    && (forall p :: p in vertHash <==> p in points)
    && (forall p :: p in vertHash ==> vertHash[p] < |points| && points[vertHash[p]] == p)
    && (forall i :: 0 <= i < v ==> remap[i] < |points| && points[remap[i]] == RoundPoint(verts[i], accuracy))
    && |firsts| == |points|
    && (forall k :: 0 <= k < |points| ==>
          firsts[k] < v && remap[firsts[k]] == k && forall i :: 0 <= i < firsts[k] ==> remap[i] < k)
  }

  /** One step of the vertex loop keeps the loop state. */
  lemma MergingStep(verts: seq<Point3>, accuracy: real, v: nat, vertHash: map<IntPoint, nat>,
                    remap: seq<nat>, points: seq<IntPoint>, nMerges: nat, firsts: seq<nat>)
    requires v < |verts| && Merging(verts, accuracy, v, vertHash, remap, points, nMerges, firsts)
    ensures var key := RoundPoint(verts[v], accuracy);
      if key !in vertHash
      then Merging(verts, accuracy, v + 1, vertHash[key := |points|], remap + [|points|], points + [key], nMerges, firsts + [v])
      else Merging(verts, accuracy, v + 1, vertHash, remap + [vertHash[key]], points, nMerges + 1, firsts)
  {
    if RoundPoint(verts[v], accuracy) !in vertHash {
      MergingNew(verts, accuracy, v, vertHash, remap, points, nMerges, firsts);
    } else {
      MergingSeen(verts, accuracy, v, vertHash, remap, points, nMerges, firsts);
    }
  }

  /** A vertex whose rounded point is new appends that point. */
  lemma MergingNew(verts: seq<Point3>, accuracy: real, v: nat, vertHash: map<IntPoint, nat>,
                   remap: seq<nat>, points: seq<IntPoint>, nMerges: nat, firsts: seq<nat>)
    requires v < |verts| && Merging(verts, accuracy, v, vertHash, remap, points, nMerges, firsts)
    requires RoundPoint(verts[v], accuracy) !in vertHash
    ensures var key := RoundPoint(verts[v], accuracy);
      Merging(verts, accuracy, v + 1, vertHash[key := |points|], remap + [|points|], points + [key], nMerges, firsts + [v])
  {
    var key := RoundPoint(verts[v], accuracy);
    var hash1, points1 := vertHash[key := |points|], points + [key];
    forall p | p in hash1
      ensures hash1[p] < |points1| && points1[hash1[p]] == p
    {
      if p != key {
        assert points1[hash1[p]] == points[vertHash[p]];
      }
    }
  }

  /** A vertex whose rounded point was seen maps to that point's index. */
  lemma MergingSeen(verts: seq<Point3>, accuracy: real, v: nat, vertHash: map<IntPoint, nat>,
                    remap: seq<nat>, points: seq<IntPoint>, nMerges: nat, firsts: seq<nat>)
    requires v < |verts| && Merging(verts, accuracy, v, vertHash, remap, points, nMerges, firsts)
    requires RoundPoint(verts[v], accuracy) in vertHash
    ensures var key := RoundPoint(verts[v], accuracy);
      Merging(verts, accuracy, v + 1, vertHash, remap + [vertHash[key]], points, nMerges + 1, firsts)
  {
  }

  /** Two vertices get the same index exactly when their rounded coordinates agree. */
  lemma MergeSameIndex(verts: seq<Point3>, accuracy: real, remap: seq<nat>, points: seq<IntPoint>, i: nat, j: nat)
    requires |remap| == |verts| && Distinct(points)
    requires forall i :: 0 <= i < |verts| ==>
      remap[i] < |points| && points[remap[i]] == RoundPoint(verts[i], accuracy)
    requires i < |verts| && j < |verts|
    ensures remap[i] == remap[j] <==> RoundPoint(verts[i], accuracy) == RoundPoint(verts[j], accuracy)
  {
    if remap[i] < remap[j] {
      assert points[remap[i]] != points[remap[j]];
    } else if remap[j] < remap[i] {
      assert points[remap[j]] != points[remap[i]];
    }
  }

  type Tri = (nat, nat, nat)

  /** The triangle remapped to merged vertex indices. */
  function RemapTri(remap: seq<nat>, tri: seq<nat>): Tri
    requires |tri| == 3 && forall k :: 0 <= k < 3 ==> tri[k] < |remap|
  {
    (remap[tri[0]], remap[tri[1]], remap[tri[2]])
  }

  predicate Degenerate(t: Tri)
  {
    t.0 == t.1 || t.0 == t.2 || t.1 == t.2
  }

  predicate ValidTris(tris: seq<seq<nat>>, n: nat)
  {
    forall t :: 0 <= t < |tris| ==> |tris[t]| == 3 && forall k :: 0 <= k < 3 ==> tris[t][k] < n
  }

  /** The remapped triangles among the first m that keep three distinct corners. */
  function KeptTris(remap: seq<nat>, tris: seq<seq<nat>>, m: nat): seq<Tri>
    requires ValidTris(tris, |remap|) && m <= |tris|
  {
    if m == 0 then []
    else
      var t := RemapTri(remap, tris[m - 1]);
      KeptTris(remap, tris, m - 1) + (if Degenerate(t) then [] else [t])
  }

  /** Every triangle that reaches the builder has three distinct corners. */
  lemma {:induction false} KeptTrisDistinct(remap: seq<nat>, tris: seq<seq<nat>>, m: nat)
    requires ValidTris(tris, |remap|) && m <= |tris|
    ensures forall k :: 0 <= k < |KeptTris(remap, tris, m)| ==> !Degenerate(KeptTris(remap, tris, m)[k])
    ensures |KeptTris(remap, tris, m)| <= m
  {
    if m > 0 {
      KeptTrisDistinct(remap, tris, m - 1);
    }
  }

  /** The triangle loop of create(): degenerate triangles are counted as losses,
      the others passed on in order. */
  method FilterTriangles(remap: seq<nat>, tris: seq<seq<nat>>) returns (kept: seq<Tri>, nTriLosses: nat)
    requires ValidTris(tris, |remap|)
    ensures kept == KeptTris(remap, tris, |tris|)
    ensures nTriLosses + |kept| == |tris|
  {
    kept, nTriLosses := [], 0;
    for t := 0 to |tris|
      invariant kept == KeptTris(remap, tris, t) && nTriLosses + |kept| == t
    {
      var tri := RemapTri(remap, tris[t]);
      if tri.0 == tri.1 || tri.0 == tri.2 || tri.1 == tri.2 {
        nTriLosses := nTriLosses + 1;
        continue;
      }
      kept := kept + [tri];
    }
  }

  /** What create() passes to the polyhedron builder, with its two counters. */
  datatype Mesh = Mesh(points: seq<IntPoint>, facets: seq<Tri>, nVertMerges: nat, nTriLosses: nat)

  /** create(verts, tris, accuracy) up to the CGAL calls: fails if some triangle
      does not have three indices, otherwise merges vertices and drops the
      triangles that merging made degenerate. */
  method Create(verts: seq<Point3>, tris: seq<seq<nat>>, accuracy: real) returns (r: Result<Mesh>)
    requires forall t :: 0 <= t < |tris| ==> forall k :: 0 <= k < |tris[t]| ==> tris[t][k] < |verts|
    ensures r.Err? <==> exists t :: 0 <= t < |tris| && |tris[t]| != 3
    ensures r.Ok? ==>
      Distinct(r.value.points) && r.value.nVertMerges + |r.value.points| == |verts| &&
      r.value.nTriLosses + |r.value.facets| == |tris| &&
      forall k :: 0 <= k < |r.value.facets| ==> !Degenerate(r.value.facets[k])
    ensures r.Ok? ==> r.value.points == MergedPoints(verts, accuracy, |verts|)
    ensures r.Ok? ==> exists remap ::
      Remaps(verts, accuracy, remap, r.value.points) && ValidTris(tris, |remap|) && r.value.facets == KeptTris(remap, tris, |tris|)
  {
    for t := 0 to |tris|
      invariant forall s :: 0 <= s < t ==> |tris[s]| == 3
    {
      if |tris[t]| != 3 {
        return Err("triangle without three corners");
      }
    }
    var remap, points, nMerges, firsts := MergeVertices(verts, accuracy);
    var kept, nLosses := FilterTriangles(remap, tris);
    KeptTrisDistinct(remap, tris, |tris|);
    r := Ok(Mesh(points, kept, nMerges, nLosses));
    assert Remaps(verts, accuracy, remap, points);
  }

  /** remap sends each vertex to the index of its rounded point; with distinct
      points there is only one such remap. */
  ghost predicate Remaps(verts: seq<Point3>, accuracy: real, remap: seq<nat>, points: seq<IntPoint>)
  {
    |remap| == |verts| &&
    forall i :: 0 <= i < |verts| ==> remap[i] < |points| && points[remap[i]] == RoundPoint(verts[i], accuracy)
  }

  lemma RemapsUnique(verts: seq<Point3>, accuracy: real, remap1: seq<nat>, remap2: seq<nat>, points: seq<IntPoint>)
    requires Distinct(points) && Remaps(verts, accuracy, remap1, points) && Remaps(verts, accuracy, remap2, points)
    ensures remap1 == remap2
  {
    forall i | 0 <= i < |verts|
      ensures remap1[i] == remap2[i]
    {
      assert points[remap1[i]] == points[remap2[i]];
    }
  }

  /** A triangle read from an STL file, as its three corner points. */
  type StlTriangle = (Point3, Point3, Point3)

  predicate RepeatsPoint(tr: StlTriangle)
  {
    tr.0 == tr.1 || tr.0 == tr.2 || tr.1 == tr.2
  }

  /** The index triple points at the corners of the STL triangle. */
  predicate IndexesTriangle(verts: seq<Point3>, tri: Tri, tr: StlTriangle)
  {
    tri.0 < |verts| && tri.1 < |verts| && tri.2 < |verts| &&
    verts[tri.0] == tr.0 && verts[tri.1] == tr.1 && verts[tri.2] == tr.2
  }

  /** The vertex index of load_stl maps every vertex, and only those, to its position. */
  ghost predicate IndexOf(verts: seq<Point3>, vertIndex: map<Point3, nat>)
  {
    Distinct(verts) &&
    (forall q :: q in vertIndex <==> q in verts) &&
    (forall q :: q in vertIndex ==> vertIndex[q] < |verts| && verts[vertIndex[q]] == q)
  }

  lemma IndexesTriangleExtend(verts: seq<Point3>, extra: seq<Point3>, tri: Tri, tr: StlTriangle)
    requires IndexesTriangle(verts, tri, tr)
    ensures IndexesTriangle(verts + extra, tri, tr)
  {
  }

  /** load_stl's indexing of the triangles read from an STL file: each new
      point is appended to verts, and every triangle must have three distinct
      points. */
  method LoadStl(triangles: seq<StlTriangle>) returns (r: Result<(seq<Point3>, seq<Tri>)>)
    ensures r.Err? <==> exists t :: 0 <= t < |triangles| && RepeatsPoint(triangles[t])
    ensures r.Ok? ==>
      Distinct(r.value.0) && |r.value.1| == |triangles| &&
      forall t :: 0 <= t < |triangles| ==>
        IndexesTriangle(r.value.0, r.value.1[t], triangles[t]) && !Degenerate(r.value.1[t])
  {
    var verts: seq<Point3> := [];
    var vertIndex: map<Point3, nat> := map[];
    var tris: seq<Tri> := [];
    for t := 0 to |triangles|
      invariant IndexOf(verts, vertIndex) && |tris| == t
      invariant forall s :: 0 <= s < t ==> !RepeatsPoint(triangles[s])
      invariant forall s :: 0 <= s < t ==> IndexesTriangle(verts, tris[s], triangles[s]) && !Degenerate(tris[s])
    {
      var tri, verts' , vertIndex' := IndexTriangle(verts, vertIndex, triangles[t]);
      if Degenerate(tri) {
        return Err("triangle with a repeated point");
      }
      forall s | 0 <= s < t
        ensures IndexesTriangle(verts', tris[s], triangles[s])
      {
        IndexesTriangleExtend(verts, verts'[|verts|..], tris[s], triangles[s]);
      }
      verts, vertIndex, tris := verts', vertIndex', tris + [tri];
    }
    r := Ok((verts, tris));
  }

  /** The inner loop of load_stl over the three points of one triangle. */
  method IndexTriangle(verts: seq<Point3>, vertIndex: map<Point3, nat>, tr: StlTriangle)
    returns (tri: Tri, verts': seq<Point3>, vertIndex': map<Point3, nat>)
    requires IndexOf(verts, vertIndex)
    ensures IndexOf(verts', vertIndex') && IndexesTriangle(verts', tri, tr)
    ensures |verts| <= |verts'| && verts' == verts + verts'[|verts|..]
    ensures Degenerate(tri) <==> RepeatsPoint(tr)
  {
    var ia, ib, ic;
    var v1, m1, v2, m2;
    v1, m1, ia := IndexPoint(verts, vertIndex, tr.0);
    v2, m2, ib := IndexPoint(v1, m1, tr.1);
    verts', vertIndex', ic := IndexPoint(v2, m2, tr.2);
    tri := (ia, ib, ic);
    TriangleOfPrefixes(verts, v1, v2, verts', tri, tr);
  }

  /** The three indices found one after another still point at their corners
      in the final vertex list, and coincide exactly when the corners do. */
  lemma TriangleOfPrefixes(v0: seq<Point3>, v1: seq<Point3>, v2: seq<Point3>, v3: seq<Point3>, tri: Tri, tr: StlTriangle)
    requires |v0| <= |v1| <= |v2| <= |v3| && Distinct(v3)
    requires v1[..|v0|] == v0 && v2[..|v1|] == v1 && v3[..|v2|] == v2
    requires tri.0 < |v1| && v1[tri.0] == tr.0
    requires tri.1 < |v2| && v2[tri.1] == tr.1
    requires tri.2 < |v3| && v3[tri.2] == tr.2
    ensures IndexesTriangle(v3, tri, tr)
    ensures |v0| <= |v3| && v3 == v0 + v3[|v0|..]
    ensures Degenerate(tri) <==> RepeatsPoint(tr)
  {
    assert v2[tri.0] == v1[tri.0];
    assert v3[tri.0] == v2[tri.0] && v3[tri.1] == v2[tri.1];
    assert v3[..|v0|] == v0;
    DistinctIndex(v3, tri.0, tri.1);
    DistinctIndex(v3, tri.0, tri.2);
    DistinctIndex(v3, tri.1, tri.2);
  }

  lemma DistinctIndex<T>(s: seq<T>, i: nat, j: nat)
    requires Distinct(s) && i < |s| && j < |s|
    ensures s[i] == s[j] <==> i == j
  {
    if i < j {
      assert s[i] != s[j];
    } else if j < i {
      assert s[j] != s[i];
    }
  }

  /** The `if point not in vert_index` step of load_stl. */
  method IndexPoint(verts: seq<Point3>, vertIndex: map<Point3, nat>, p: Point3)
    returns (verts': seq<Point3>, vertIndex': map<Point3, nat>, i: nat)
    requires IndexOf(verts, vertIndex)
    ensures IndexOf(verts', vertIndex')
    ensures i < |verts'| && verts'[i] == p
    ensures |verts| <= |verts'| && verts'[..|verts|] == verts
    ensures p in verts ==> verts' == verts
    ensures p !in verts ==> verts' == verts + [p]
  {
    if p !in vertIndex {
      vertIndex' := vertIndex[p := |verts|];
      verts' := verts + [p];
    } else {
      verts', vertIndex' := verts, vertIndex;
    }
    i := vertIndex'[p];
  }
}

/** Vertex, normal, uv and index buffers built one quad (two triangles) at a
    time, as both the terrain mesher and the cloud mesher do. */
module Quads {
  import opened Common

  datatype Buffers = Buffers(positions: seq<real>, normals: seq<real>, uvs: seq<real>, indices: seq<int>)

  const NoBuffers: Buffers := Buffers([], [], [], [])

  /** The texture coordinates of every quad. */
  const QuadUVs: seq<real> := [0.0, 0.0, 1.0, 0.0, 1.0, 1.0, 0.0, 1.0]

  /** The two triangles (0, 1, 2) and (0, 2, 3) of a quad's four corners. */
  const QuadPattern: seq<int> := [0, 1, 2, 0, 2, 3]

  function Flatten(corners: seq<Vec3>): (r: seq<real>)
    ensures |r| == 3 * |corners|
  {
    if corners == [] then [] else [corners[0].x, corners[0].y, corners[0].z] + Flatten(corners[1..])
  }

  /** Appends one quad: its four corners, its normal four times, the quad uvs,
      and the two triangles over the vertices numbered from `base`. */
  function AddQuad(b: Buffers, corners: seq<Vec3>, normal: Vec3, base: int): (r: Buffers)
    requires |corners| == 4
    ensures |r.positions| == |b.positions| + 12 && |r.normals| == |b.normals| + 12
    ensures |r.uvs| == |b.uvs| + 8 && |r.indices| == |b.indices| + 6
    ensures r.positions[..|b.positions|] == b.positions && r.indices[..|b.indices|] == b.indices
    ensures forall j :: 0 <= j < 6 ==> r.indices[|b.indices| + j] == base + QuadPattern[j]
  {
    Buffers(b.positions + Flatten(corners),
            b.normals + Flatten([normal, normal, normal, normal]),
            b.uvs + QuadUVs,
            b.indices + [base, base + 1, base + 2, base, base + 2, base + 3])
  }

  /** The number of quads the buffers hold. */
  function QuadCount(b: Buffers): nat {
    |b.indices| / 6
  }

  /** Buffers of k quads: 12 position numbers, 12 normal numbers, 8 uv numbers
      and 6 indices per quad, with quad q's indices 4q + (0, 1, 2, 0, 2, 3). */
  predicate WellFormed(b: Buffers) {
    && |b.indices| % 6 == 0
    && |b.positions| == 12 * QuadCount(b)
    && |b.normals| == 12 * QuadCount(b)
    && |b.uvs| == 8 * QuadCount(b)
    && forall i :: 0 <= i < |b.indices| ==> b.indices[i] == 4 * (i / 6) + QuadPattern[i % 6]
  }

  /** Adding a quad numbered from the current vertex count keeps the buffers
      well formed and adds one quad. */
  lemma AddQuadWellFormed(b: Buffers, corners: seq<Vec3>, normal: Vec3)
    requires WellFormed(b) && |corners| == 4
    ensures WellFormed(AddQuad(b, corners, normal, |b.positions| / 3))
    ensures QuadCount(AddQuad(b, corners, normal, |b.positions| / 3)) == QuadCount(b) + 1
  {
    var k := QuadCount(b);
    var r := AddQuad(b, corners, normal, |b.positions| / 3);
    assert |b.indices| == 6 * k by { DivMod6(k, 0); }
    assert |b.positions| / 3 == 4 * k by { Div3(4 * k); }
    assert forall i :: 0 <= i < 6 * k ==> r.indices[i] == 4 * (i / 6) + QuadPattern[i % 6] by {
      forall i | 0 <= i < 6 * k ensures r.indices[i] == 4 * (i / 6) + QuadPattern[i % 6] {
        assert r.indices[i] == r.indices[..|b.indices|][i] == b.indices[i];
      }
    }
    PatternExtends(r.indices, k);
    assert QuadCount(r) == k + 1 by { DivMod6(k + 1, 0); }
  }

  /** Indices that follow the pattern for k quads, followed by one more quad
      numbered from 4k, follow the pattern for k + 1 quads. */
  lemma PatternExtends(indices: seq<int>, k: nat)
    requires |indices| == 6 * k + 6
    requires forall i :: 0 <= i < 6 * k ==> indices[i] == 4 * (i / 6) + QuadPattern[i % 6]
    requires forall j :: 0 <= j < 6 ==> indices[6 * k + j] == 4 * k + QuadPattern[j]
    ensures forall i :: 0 <= i < |indices| ==> indices[i] == 4 * (i / 6) + QuadPattern[i % 6]
  {
    forall i | 6 * k <= i < |indices|
      ensures indices[i] == 4 * (i / 6) + QuadPattern[i % 6]
    {
      var j := i - 6 * k;
      assert indices[6 * k + j] == 4 * k + QuadPattern[j];
      DivMod6(k, j);
    }
  }

  lemma Div3(m: int)
    ensures (3 * m) / 3 == m
  {
  }

  lemma DivMod6(k: int, j: int)
    requires 0 <= j < 6
    ensures (6 * k + j) / 6 == k && (6 * k + j) % 6 == j
  {
  }

  /** Every index of well-formed buffers names an existing vertex. */
  lemma IndicesInRange(b: Buffers)
    requires WellFormed(b)
    ensures forall i :: 0 <= i < |b.indices| ==> 0 <= b.indices[i] < |b.positions| / 3
  {
    forall i | 0 <= i < |b.indices|
      ensures 0 <= b.indices[i] < |b.positions| / 3
    {
      assert i / 6 < QuadCount(b);
      assert |b.positions| / 3 == 4 * QuadCount(b);
    }
  }
}

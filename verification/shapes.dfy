/**
 * The wireframe-shape sketch (shapes.js): three-component vectors and their
 * `add`, `subtract` and `dot`; `VertexArray`, a structure-of-arrays buffer of
 * vertices with a length count, bounds-checked access, push and pop, and
 * whole-buffer translation and scaling; `TriangleWireFrame`, which adds the
 * three vertex-index lists of its triangles, their normals and a cull flag;
 * and `Shape`, which adds a fill flag.
 *
 * Coordinates are exact reals. A `throw` is an `Outcome.Throw` carrying the
 * thrown string. The class hierarchy is modelled by composition: a
 * wireframe holds its vertex buffer in `vertices`, a shape its wireframe in
 * `frame`.
 */
module Shapes {
  import opened Wrappers

  /** A point or vector `{x, y, z}`. */
  datatype Vec3 = Vec3(x: real, y: real, z: real)

  const Origin := Vec3(0.0, 0.0, 0.0)

  /** `add` as written: the y-component is `v1.x + v2.y`. */
  function AddAsWritten(v1: Vec3, v2: Vec3): Vec3
  {
    Vec3(v1.x + v2.x, v1.x + v2.y, v1.z + v2.z)
  }

  /** The componentwise sum `add` is meant to compute. */
  function Add(v1: Vec3, v2: Vec3): Vec3
  {
    Vec3(v1.x + v2.x, v1.y + v2.y, v1.z + v2.z)
  }

  /** `subtract`: the componentwise difference. */
  function Subtract(v1: Vec3, v2: Vec3): Vec3
  {
    Vec3(v1.x - v2.x, v1.y - v2.y, v1.z - v2.z)
  }

  /** `dot`: the sum of the componentwise products. */
  function Dot(v1: Vec3, v2: Vec3): real
  {
    v1.x * v2.x + v1.y * v2.y + v1.z * v2.z
  }

  /** The vector every coordinate of which `changeSize` multiplies by c. */
  function Scale(c: real, v: Vec3): Vec3
  {
    Vec3(c * v.x, c * v.y, c * v.z)
  }

  /**
   * `add` as written agrees with the componentwise sum exactly when the first
   * operand's x and y are equal; (1, 0, 0) + (0, 0, 0) comes out as (1, 1, 0).
   */
  lemma AddAsWrittenMisplacesY(v1: Vec3, v2: Vec3)
    ensures AddAsWritten(v1, v2) == Add(v1, v2) <==> v1.x == v1.y
    ensures AddAsWritten(Vec3(1.0, 0.0, 0.0), Origin) == Vec3(1.0, 1.0, 0.0) != Vec3(1.0, 0.0, 0.0)
  {
    if AddAsWritten(v1, v2) == Add(v1, v2) {
      assert AddAsWritten(v1, v2).y == Add(v1, v2).y;
    }
  }

  /** As written, subtracting the second operand back does not recover the first. */
  lemma AddAsWrittenNoInverse(v1: Vec3, v2: Vec3)
    ensures Subtract(AddAsWritten(v1, v2), v2) == v1 <==> v1.x == v1.y
  {
    if Subtract(AddAsWritten(v1, v2), v2) == v1 {
      assert Subtract(AddAsWritten(v1, v2), v2).y == v1.y;
    }
  }

  /** The sum is commutative, has the origin as unit, and `subtract` undoes it. */
  lemma AddSubtractInverse(v1: Vec3, v2: Vec3)
    ensures Add(v1, v2) == Add(v2, v1) && Add(v1, Origin) == v1
    ensures Subtract(Add(v1, v2), v2) == v1 && Add(Subtract(v1, v2), v2) == v1
    ensures Subtract(v1, v2) == Add(v1, Scale(-1.0, v2))
  {
  }

  /** `dot` is symmetric and distributes over the sum and over scaling. */
  lemma DotBilinear(u: Vec3, v: Vec3, w: Vec3, c: real)
    ensures Dot(u, v) == Dot(v, u)
    ensures Dot(Add(u, v), w) == Dot(u, w) + Dot(v, w)
    ensures Dot(Scale(c, u), v) == c * Dot(u, v)
  {
  }

  /** Every vertex moved by d: what `changePosition(d.x, d.y, d.z)` leaves. */
  function Translated(vs: seq<Vec3>, d: Vec3): (r: seq<Vec3>)
    ensures |r| == |vs|
  {
    seq(|vs|, i requires 0 <= i < |vs| => Add(vs[i], d))
  }

  /** Every coordinate multiplied by c: what `changeSize(c)` leaves. */
  function Scaled(vs: seq<Vec3>, c: real): (r: seq<Vec3>)
    ensures |r| == |vs|
  {
    seq(|vs|, i requires 0 <= i < |vs| => Scale(c, vs[i]))
  }

  /**
   * Translating keeps every difference between two vertices; translating
   * back by the opposite offset restores the buffer.
   */
  lemma TranslatedFacts(vs: seq<Vec3>, d: Vec3, i: int, j: int)
    requires 0 <= i < |vs| && 0 <= j < |vs|
    ensures Subtract(Translated(vs, d)[i], Translated(vs, d)[j]) == Subtract(vs[i], vs[j])
    ensures Translated(Translated(vs, d), Scale(-1.0, d)) == vs
  {
    var back := Translated(Translated(vs, d), Scale(-1.0, d));
    forall k | 0 <= k < |vs|
      ensures back[k] == vs[k]
    {
      assert back[k] == Add(Add(vs[k], d), Scale(-1.0, d));
    }
  }

  /**
   * Scaling by c multiplies every difference between two vertices by c and
   * every dot product of two of them by c*c; scaling back by 1/c restores the
   * buffer when c is not zero.
   */
  lemma ScaledFacts(vs: seq<Vec3>, c: real, i: int, j: int)
    requires 0 <= i < |vs| && 0 <= j < |vs|
    ensures Subtract(Scaled(vs, c)[i], Scaled(vs, c)[j]) == Scale(c, Subtract(vs[i], vs[j]))
    ensures Dot(Scaled(vs, c)[i], Scaled(vs, c)[j]) == c * c * Dot(vs[i], vs[j])
    ensures c != 0.0 ==> Scaled(Scaled(vs, c), 1.0 / c) == vs
  {
    assert Scaled(vs, c)[i] == Scale(c, vs[i]) && Scaled(vs, c)[j] == Scale(c, vs[j]);
    ScaleDifference(c, vs[i], vs[j]);
    ScaleDot(c, vs[i], vs[j]);
    if c != 0.0 {
      ScaledBack(vs, c);
    }
  }

  lemma ScaleDifference(c: real, u: Vec3, v: Vec3)
    ensures Subtract(Scale(c, u), Scale(c, v)) == Scale(c, Subtract(u, v))
  {
    assert c * u.x - c * v.x == c * (u.x - v.x);
    assert c * u.y - c * v.y == c * (u.y - v.y);
    assert c * u.z - c * v.z == c * (u.z - v.z);
  }

  lemma ScaleDot(c: real, u: Vec3, v: Vec3)
    ensures Dot(Scale(c, u), Scale(c, v)) == c * c * Dot(u, v)
  {
    calc {
      Dot(Scale(c, u), Scale(c, v));
      (c * u.x) * (c * v.x) + (c * u.y) * (c * v.y) + (c * u.z) * (c * v.z);
      c * c * (u.x * v.x + u.y * v.y + u.z * v.z);
    }
  }

  lemma ScaleBack(c: real, w: Vec3)
    requires c != 0.0
    ensures Scale(1.0 / c, Scale(c, w)) == w
  {
    assert (1.0 / c) * c == 1.0;
    assert (1.0 / c) * (c * w.x) == w.x;
    assert (1.0 / c) * (c * w.y) == w.y;
    assert (1.0 / c) * (c * w.z) == w.z;
  }

  lemma ScaledBack(vs: seq<Vec3>, c: real)
    requires c != 0.0
    ensures Scaled(Scaled(vs, c), 1.0 / c) == vs
  {
    var back := Scaled(Scaled(vs, c), 1.0 / c);
    forall k | 0 <= k < |vs|
      ensures back[k] == vs[k]
    {
      ScaleBack(c, vs[k]);
    }
  }

  /** The message `checkIndex` and the constructors throw. */
  const IndexMessage := "Index out of range."
  const LengthMessage := "Input arrays must have the same length."

  /** `VertexArray`: the coordinates of n vertices in three parallel lists and their count. */
  class VertexArray {
    var length: int
    var x: seq<real>
    var y: seq<real>
    var z: seq<real>

    /** The count is the length of each coordinate list. */
    ghost predicate Valid()
      reads this
    {
      |x| == length && |y| == length && |z| == length
    }

    /** The vertices the buffer holds, in order. */
    function Vertices(): (r: seq<Vec3>)
      reads this
      requires Valid()
      ensures |r| == length
      ensures forall i :: 0 <= i < length ==> r[i] == Vec3(x[i], y[i], z[i])
    {
      var n, xs, ys, zs := length, x, y, z;
      seq(n, i requires 0 <= i < n => Vec3(xs[i], ys[i], zs[i]))
    }

    /** A buffer over the given lists, which the constructor's caller has checked for equal length. */
    constructor Over(xs: seq<real>, ys: seq<real>, zs: seq<real>)
      requires |ys| == |xs| && |zs| == |xs|
      ensures Valid() && x == xs && y == ys && z == zs
    {
      length := |xs|;
      x, y, z := xs, ys, zs;
    }

    /** `checkIndex(index)`: throws unless 0 <= index < length. */
    function CheckIndex(index: int): (r: Outcome<()>)
      reads this
      ensures r.Ok? <==> 0 <= index < length
      ensures r.Throw? ==> r.message == IndexMessage
    {
      if index >= length || index < 0 then Throw(IndexMessage) else Ok(())
    }

    /** `getVertex(index)`: the vertex at a checked index. */
    function GetVertex(index: int): (r: Outcome<Vec3>)
      reads this
      requires Valid()
      ensures r.Ok? <==> CheckIndex(index).Ok?
      ensures r.Ok? ==> r.value == Vertices()[index]
      ensures r.Throw? ==> r.message == IndexMessage
    {
      match CheckIndex(index)
      case Throw(msg) => Throw(msg)
      case Ok(_) => Ok(Vec3(x[index], y[index], z[index]))
    }

    /**
     * `setVertex(index, x, y, z)`: after a checked index, `getVertex(index)`
     * gives the new vertex and every other vertex is unchanged; an index out
     * of range throws and changes nothing.
     */
    method SetVertex(index: int, vx: real, vy: real, vz: real) returns (r: Outcome<()>)
      requires Valid()
      modifies this
      ensures Valid() && length == old(length)
      ensures r == old(CheckIndex(index))
      ensures r.Ok? ==> Vertices() == old(Vertices())[index := Vec3(vx, vy, vz)]
      ensures r.Ok? ==> GetVertex(index) == Ok(Vec3(vx, vy, vz))
      ensures forall j :: j != index ==> GetVertex(j) == old(GetVertex(j))
      ensures r.Throw? ==> x == old(x) && y == old(y) && z == old(z)
    {
      r := CheckIndex(index);
      if r.Throw? {
        return;
      }
      x := x[index := vx];
      y := y[index := vy];
      z := z[index := vz];
    }

    /** `pushVertex(x, y, z)`: appends a vertex and counts it. */
    method PushVertex(vx: real, vy: real, vz: real)
      requires Valid()
      modifies this
      ensures Valid() && length == old(length) + 1
      ensures Vertices() == old(Vertices()) + [Vec3(vx, vy, vz)]
      ensures GetVertex(old(length)) == Ok(Vec3(vx, vy, vz))
    {
      length := length + 1;
      x := x + [vx];
      y := y + [vy];
      z := z + [vz];
    }

    /**
     * `popVertex()`: removes and returns the last vertex; on an empty buffer
     * it returns `undefined` and changes nothing.
     */
    method PopVertex() returns (r: Option<Vec3>)
      requires Valid()
      modifies this
      ensures Valid()
      ensures old(length) == 0 ==> r == None && x == old(x) && y == old(y) && z == old(z) && length == 0
      ensures old(length) != 0 ==> length == old(length) - 1 && r == Some(old(Vertices())[length])
      ensures old(length) != 0 ==> Vertices() == old(Vertices())[..length]
      ensures old(length) != 0 ==> old(Vertices()) == Vertices() + [r.value]
    {
      if length != 0 {
        length := length - 1;
        var vx, vy, vz := x[length], y[length], z[length];
        x, y, z := x[..length], y[..length], z[..length];
        r := Some(Vec3(vx, vy, vz));
        assert old(Vertices()) == Vertices() + [r.value];
      } else {
        r := None;
      }
    }

    /** `changePosition(x, y, z)`: moves every vertex by the offset. */
    method ChangePosition(dx: real, dy: real, dz: real)
      requires Valid()
      modifies this
      ensures Valid() && length == old(length)
      ensures Vertices() == Translated(old(Vertices()), Vec3(dx, dy, dz))
    {
      ghost var before := Vertices();
      ghost var d := Vec3(dx, dy, dz);
      for i := 0 to length
        invariant Valid() && length == |before|
        invariant forall k :: 0 <= k < i ==> Vertices()[k] == Add(before[k], d)
        invariant forall k :: i <= k < length ==> Vertices()[k] == before[k]
      {
        x := x[i := x[i] + dx];
        y := y[i := y[i] + dy];
        z := z[i := z[i] + dz];
      }
    }

    /** `changeSize(c)`: multiplies every coordinate of every vertex by c. */
    method ChangeSize(scaleVal: real)
      requires Valid()
      modifies this
      ensures Valid() && length == old(length)
      ensures Vertices() == Scaled(old(Vertices()), scaleVal)
    {
      ghost var before := Vertices();
      ScaledUpToEnds(before, scaleVal);
      for i := 0 to length
        invariant Valid() && length == |before|
        invariant Vertices() == ScaledUpTo(before, scaleVal, i)
      {
        ScaleVertex(i, scaleVal);
        ScaledUpToStep(before, scaleVal, i);
      }
    }

    /** One turn of the loop of `changeSize`: vertex i is multiplied by c. */
    method ScaleVertex(i: int, c: real)
      requires Valid() && 0 <= i < length
      modifies this
      ensures Valid() && length == old(length)
      ensures Vertices() == old(Vertices())[i := Scale(c, old(Vertices())[i])]
    {
      ghost var before := Vertices();
      x := x[i := c * x[i]];
      y := y[i := c * y[i]];
      z := z[i := c * z[i]];
      ghost var after := before[i := Scale(c, before[i])];
      assert forall k :: 0 <= k < length ==> Vertices()[k] == after[k];
    }
  }

  /** The buffer when the loop of `changeSize` has scaled the first i vertices. */
  function ScaledUpTo(vs: seq<Vec3>, c: real, i: int): (r: seq<Vec3>)
    ensures |r| == |vs|
  {
    seq(|vs|, k requires 0 <= k < |vs| => if k < i then Scale(c, vs[k]) else vs[k])
  }

  lemma ScaledUpToEnds(vs: seq<Vec3>, c: real)
    ensures ScaledUpTo(vs, c, 0) == vs && ScaledUpTo(vs, c, |vs|) == Scaled(vs, c)
  {
  }

  lemma ScaledUpToStep(vs: seq<Vec3>, c: real, i: int)
    requires 0 <= i < |vs|
    ensures ScaledUpTo(vs, c, i)[i := Scale(c, vs[i])] == ScaledUpTo(vs, c, i + 1)
  {
  }

  /** `new VertexArray(x, y, z)`: throws unless the three lists have the same length. */
  method NewVertexArray(xs: seq<real>, ys: seq<real>, zs: seq<real>) returns (r: Outcome<VertexArray>)
    ensures r.Throw? <==> |ys| != |xs| || |zs| != |xs|
    ensures r.Throw? ==> r.message == LengthMessage
    ensures r.Ok? ==> fresh(r.value) && r.value.Valid() && r.value.length == |xs|
    ensures r.Ok? ==> r.value.x == xs && r.value.y == ys && r.value.z == zs
  {
    if |ys| != |xs| || |zs| != |xs| {
      return Throw(LengthMessage);
    }
    var v := new VertexArray.Over(xs, ys, zs);
    return Ok(v);
  }

  /**
   * `TriangleWireFrame`: a vertex buffer, the three vertex-index lists of its
   * triangles, one normal per triangle, and whether back faces are culled.
   */
  class TriangleWireFrame {
    const vertices: VertexArray
    var cull: bool
    var nTriangles: int
    var triVertex0: seq<int>
    var triVertex1: seq<int>
    var triVertex2: seq<int>
    var triNorm: seq<Vec3>

    /** Each index list and the normal list hold one entry per triangle. */
    ghost predicate Valid()
      reads this, vertices
    {
      vertices.Valid() &&
      |triVertex0| == nTriangles && |triVertex1| == nTriangles &&
      |triVertex2| == nTriangles && |triNorm| == nTriangles
    }

    /**
     * A wireframe over checked lists; the normal of triangle i is
     * `getNorm(i)`, which the caller supplies.
     */
    constructor Over(vs: VertexArray, i0: seq<int>, i1: seq<int>, i2: seq<int>, getNorm: int -> Vec3)
      requires vs.Valid() && |i1| == |i0| && |i2| == |i0|
      ensures Valid() && vertices == vs && !cull
      ensures nTriangles == |i0| && triVertex0 == i0 && triVertex1 == i1 && triVertex2 == i2
      ensures forall i :: 0 <= i < nTriangles ==> triNorm[i] == getNorm(i)
    {
      var norms := [];
      for i := 0 to |i0|
        invariant |norms| == i
        invariant forall k :: 0 <= k < i ==> norms[k] == getNorm(k)
      {
        norms := norms + [getNorm(i)];
      }
      vertices := vs;
      cull := false;
      nTriangles := |i0|;
      triVertex0, triVertex1, triVertex2 := i0, i1, i2;
      triNorm := norms;
    }

    /**
     * `pushTriangle(index0, index1, index2)`: appends a triangle and the
     * normal `getNorm(nTriangles - 1)` of the new last triangle.
     */
    method PushTriangle(index0: int, index1: int, index2: int, getNorm: int -> Vec3)
      requires Valid()
      modifies this
      ensures Valid() && nTriangles == old(nTriangles) + 1
      ensures triVertex0 == old(triVertex0) + [index0]
      ensures triVertex1 == old(triVertex1) + [index1]
      ensures triVertex2 == old(triVertex2) + [index2]
      ensures triNorm == old(triNorm) + [getNorm(nTriangles - 1)]
      ensures cull == old(cull)
    {
      nTriangles := nTriangles + 1;
      triVertex0 := triVertex0 + [index0];
      triVertex1 := triVertex1 + [index1];
      triVertex2 := triVertex2 + [index2];
      triNorm := triNorm + [getNorm(nTriangles - 1)];
    }

    /** `toggleCull()`: negates the cull flag. */
    method ToggleCull()
      modifies this
      ensures cull == !old(cull)
      ensures nTriangles == old(nTriangles) && triVertex0 == old(triVertex0) && triVertex1 == old(triVertex1)
      ensures triVertex2 == old(triVertex2) && triNorm == old(triNorm)
    {
      cull := !cull;
    }
  }

  /**
   * `new TriangleWireFrame(x, y, z, index0, index1, index2)`: throws when the
   * coordinate lists or the index lists differ in length; otherwise the cull
   * flag is off and triangle i has normal `getNorm(i)`.
   */
  method NewTriangleWireFrame(xs: seq<real>, ys: seq<real>, zs: seq<real>,
                              i0: seq<int>, i1: seq<int>, i2: seq<int>, getNorm: int -> Vec3)
    returns (r: Outcome<TriangleWireFrame>)
    ensures r.Throw? <==> |ys| != |xs| || |zs| != |xs| || |i1| != |i0| || |i2| != |i0|
    ensures r.Throw? ==> r.message == LengthMessage
    ensures r.Ok? ==> fresh(r.value) && fresh(r.value.vertices) && r.value.Valid() && !r.value.cull
    ensures r.Ok? ==> r.value.vertices.Vertices() == seq(|xs|, i requires 0 <= i < |xs| => Vec3(xs[i], ys[i], zs[i]))
    ensures r.Ok? ==> r.value.nTriangles == |i0| && r.value.triVertex0 == i0
    ensures r.Ok? ==> r.value.triVertex1 == i1 && r.value.triVertex2 == i2
    ensures r.Ok? ==> forall i :: 0 <= i < |i0| ==> r.value.triNorm[i] == getNorm(i)
  {
    var vs := NewVertexArray(xs, ys, zs);
    if vs.Throw? {
      return Throw(vs.message);
    }
    if |i1| != |i0| || |i2| != |i0| {
      return Throw(LengthMessage);
    }
    var f := new TriangleWireFrame.Over(vs.value, i0, i1, i2, getNorm);
    return Ok(f);
  }

  /** `Shape`: a wireframe drawn filled or not. */
  class Shape {
    const frame: TriangleWireFrame
    var fill: bool

    /** A shape over a wireframe, drawn filled. */
    constructor Over(f: TriangleWireFrame)
      ensures frame == f && fill
    {
      frame := f;
      fill := true;
    }

    /** `toggleFill()`: negates the fill flag. */
    method ToggleFill()
      modifies this
      ensures fill == !old(fill)
    {
      fill := !fill;
    }
  }
}

/**
 Vector and point interchange types: fixed-arity coordinate tuples whose
 named components are laid out in array order, x = 0, y = 1, z = 2, w = 3.
 Every conversion is pure data movement; nothing here does arithmetic on `T`.
 */
module Vectors {

  /** Name of a vector component. */
  datatype Axis = X | Y | Z | W

  /** Position of the component in the flat array form. */
  function Index(a: Axis): nat {
    match a
    case X => 0
    case Y => 1
    case Z => 2
    case W => 3
  }

  /** The axis declared at array position `i`. */
  function AxisAt(i: nat): (a: Axis)
    requires i < 4
    ensures Index(a) == i
  {
    if i == 0 then X else if i == 1 then Y else if i == 2 then Z else W
  }

  /** Field identifier of the axis, as written in the struct declarations. */
  function AxisName(a: Axis): string {
    match a
    case X => "x"
    case Y => "y"
    case Z => "z"
    case W => "w"
  }

  /** The arities the interchange vectors come in. */
  predicate IsArity(n: int) {
    2 <= n <= 4
  }

  /** `Vector2`, `Vector3` and `Vector4`; the constructor is the arity. */
  datatype Vector<T> =
    | Vector2(x: T, y: T)
    | Vector3(x: T, y: T, z: T)
    | Vector4(x: T, y: T, z: T, w: T)

  /** Number of components of the vector's type. */
  function Dim<T>(v: Vector<T>): nat {
    match v
    case Vector2(_, _) => 2
    case Vector3(_, _, _) => 3
    case Vector4(_, _, _, _) => 4
  }

  /** The component stored in the field named `a`. */
  function Get<T>(v: Vector<T>, a: Axis): T
    requires Index(a) < Dim(v)
  {
    match a
    case X => v.x
    case Y => v.y
    case Z => v.z
    case W => v.w
  }

  /** The component at array position `i`: the field declared `i`-th. */
  function At<T>(v: Vector<T>, i: nat): T
    requires i < Dim(v)
  {
    Get(v, AxisAt(i))
  }

  /** `From<[T; N]>`: the array's length selects the vector type, and
      element `i` becomes the field declared `i`-th. */
  function FromArray<T>(a: seq<T>): (v: Vector<T>)
    requires IsArity(|a|)
    ensures Dim(v) == |a|
    ensures forall i :: 0 <= i < |a| ==> At(v, i) == a[i]
  {
    if |a| == 2 then Vector2(a[0], a[1])
    else if |a| == 3 then Vector3(a[0], a[1], a[2])
    else Vector4(a[0], a[1], a[2], a[3])
  }

  /** `Into<[T; N]>`: the components in declaration order. */
  function ToArray<T>(v: Vector<T>): (a: seq<T>)
    ensures |a| == Dim(v)
    ensures forall i :: 0 <= i < |a| ==> a[i] == At(v, i)
  {
    match v
    case Vector2(x, y) => [x, y]
    case Vector3(x, y, z) => [x, y, z]
    case Vector4(x, y, z, w) => [x, y, z, w]
  }

  /** Two vectors of one arity that agree at every position are equal. */
  lemma Extensionality<T>(u: Vector<T>, v: Vector<T>)
    requires Dim(u) == Dim(v)
    requires forall i :: 0 <= i < Dim(u) ==> At(u, i) == At(v, i)
    ensures u == v
  {
    assert At(u, 0) == At(v, 0) && At(u, 1) == At(v, 1);
    if Dim(u) > 2 {
      assert At(u, 2) == At(v, 2);
    }
    if Dim(u) > 3 {
      assert At(u, 3) == At(v, 3);
    }
  }

  /** Converting a vector to its array and back gives the vector. */
  lemma FromArrayOfToArray<T>(v: Vector<T>)
    ensures FromArray(ToArray(v)) == v
  {
    Extensionality(FromArray(ToArray(v)), v);
  }

  /** Converting an array to a vector and back gives the array. */
  lemma ToArrayOfFromArray<T>(a: seq<T>)
    requires IsArity(|a|)
    ensures ToArray(FromArray(a)) == a
  {
  }

  /** Outcome of `from_slice`: the vector, or the first component the slice
      has no element for (the source panics with `PanicMessage(axis)`). */
  datatype SliceResult<T> = Ok(value: Vector<T>) | Missing(axis: Axis)

  /** Text of the panic raised when `axis` is absent from the slice. */
  function PanicMessage(axis: Axis): string {
    "Missing " + AxisName(axis) + "-axis in slice."
  }

  /** `VectorN::from_slice`: read the N components in declaration order
      from the front of `s`; elements beyond the N-th are ignored. */
  function FromSlice<T>(n: nat, s: seq<T>): (r: SliceResult<T>)
    requires IsArity(n)
    ensures r.Ok? <==> n <= |s|
    ensures r.Ok? ==> Dim(r.value) == n && forall i :: 0 <= i < n ==> At(r.value, i) == s[i]
    ensures r.Missing? ==> Index(r.axis) == |s| < n
  {
    if |s| < n then Missing(AxisAt(|s|)) else Ok(FromArray(s[..n]))
  }

  /** On a slice of exactly N elements `from_slice` agrees with `from`. */
  lemma FromSliceExact<T>(a: seq<T>)
    requires IsArity(|a|)
    ensures FromSlice(|a|, a) == Ok(FromArray(a))
  {
    assert a[..|a|] == a;
  }

  /** A longer slice contributes only its first N elements. */
  lemma FromSlicePrefix<T>(n: nat, s: seq<T>)
    requires IsArity(n) && n <= |s|
    ensures FromSlice(n, s) == Ok(FromArray(s[..n]))
    ensures FromSlice(n, s) == FromSlice(n, s[..n])
  {
    FromSliceExact(s[..n]);
  }

  /** `Vector3::from_slice(&[0, 1, 2, 3])` is `{x: 0, y: 1, z: 2}`. */
  lemma FromSliceExample()
    ensures FromSlice(3, [0, 1, 2, 3]) == Ok(Vector3(0, 1, 2))
  {
    assert [0, 1, 2, 3][..3] == [0, 1, 2];
  }

  /** `Vector4::from_slice(&[0])` fails on the y component. */
  lemma FromSliceMissingExample()
    ensures FromSlice(4, [0]) == Missing(Y)
    ensures PanicMessage(Y) == "Missing y-axis in slice."
  {
  }

  /** `Point2` and `Point3`: positions, laid out like `Vector2` and `Vector3`. */
  datatype Point<T> =
    | Point2(x: T, y: T)
    | Point3(x: T, y: T, z: T)

  /** The coordinates of a point in declaration order. */
  function PointToArray<T>(p: Point<T>): (a: seq<T>)
    ensures |a| == (if p.Point2? then 2 else 3)
    ensures a[0] == p.x && a[1] == p.y && (p.Point3? ==> a[2] == p.z)
  {
    match p
    case Point2(x, y) => [x, y]
    case Point3(x, y, z) => [x, y, z]
  }

  /** `From<[T; N]>` for points. */
  function PointFromArray<T>(a: seq<T>): (p: Point<T>)
    requires |a| == 2 || |a| == 3
    ensures PointToArray(p) == a
  {
    if |a| == 2 then Point2(a[0], a[1]) else Point3(a[0], a[1], a[2])
  }

  /** A point as the vector with the same coordinates. */
  function PointToVector<T>(p: Point<T>): (v: Vector<T>)
    ensures ToArray(v) == PointToArray(p)
  {
    match p
    case Point2(x, y) => Vector2(x, y)
    case Point3(x, y, z) => Vector3(x, y, z)
  }

  /** A two- or three-component vector as the point with the same coordinates. */
  function PointFromVector<T>(v: Vector<T>): (p: Point<T>)
    requires Dim(v) <= 3
    ensures PointToArray(p) == ToArray(v)
  {
    match v
    case Vector2(x, y) => Point2(x, y)
    case Vector3(x, y, z) => Point3(x, y, z)
  }

  /** Point array conversion round-trips both ways. */
  lemma PointArrayRoundTrip<T>(p: Point<T>, a: seq<T>)
    requires |a| == 2 || |a| == 3
    ensures PointFromArray(PointToArray(p)) == p
    ensures PointToArray(PointFromArray(a)) == a
  {
  }

  /** Point to vector and back, and vector to point and back, are identities. */
  lemma PointVectorRoundTrip<T>(p: Point<T>, v: Vector<T>)
    requires Dim(v) <= 3
    ensures PointFromVector(PointToVector(p)) == p
    ensures PointToVector(PointFromVector(v)) == v
  {
  }
}

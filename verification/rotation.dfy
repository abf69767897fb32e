/**
 Rotation interchange types: the quaternion, stored vector part first and
 scalar last, and Euler angles tagged with the basis that gives them meaning.
 Values are stored as given; nothing is normalised or range-checked.
 */
module Rotations {
  import opened Vectors

  /** Quaternion with vector part `v` (a `Vector3`) and scalar part `s`. */
  datatype Quaternion<T> = Quaternion(v: Vector<T>, s: T)

  /** What the struct declaration guarantees: the vector part has three components. */
  predicate WellFormed<T>(q: Quaternion<T>) {
    q.v.Vector3?
  }

  /** `From<[T; 4]>`: `[x, y, z, s]` gives `v = (x, y, z)` and scalar `s`. */
  function QuaternionFromArray<T>(a: seq<T>): (q: Quaternion<T>)
    requires |a| == 4
    ensures WellFormed(q)
    ensures ToArray(q.v) == a[..3] && q.s == a[3]
  {
    Quaternion(FromArray([a[0], a[1], a[2]]), a[3])
  }

  /** `Into<[T; 4]>`: the vector part's components, then the scalar. */
  function QuaternionToArray<T>(q: Quaternion<T>): (a: seq<T>)
    requires WellFormed(q)
    ensures |a| == 4
    ensures a[..3] == ToArray(q.v) && a[3] == q.s
  {
    [q.v.x, q.v.y, q.v.z, q.s]
  }

  /** Quaternion array conversion round-trips both ways. */
  lemma QuaternionRoundTrip<T>(q: Quaternion<T>, a: seq<T>)
    requires WellFormed(q) && |a| == 4
    ensures QuaternionFromArray(QuaternionToArray(q)) == q
    ensures QuaternionToArray(QuaternionFromArray(a)) == a
  {
    var back := QuaternionFromArray(QuaternionToArray(q));
    Extensionality(back.v, q.v);
    assert QuaternionToArray(QuaternionFromArray(a)) == a[..3] + [a[3]];
  }

  /** `{v: (0, 1, 2), s: 3}` flattens to `[0, 1, 2, 3]`. */
  lemma QuaternionLayoutExample()
    ensures QuaternionToArray(Quaternion(Vector3(0, 1, 2), 3)) == [0, 1, 2, 3]
    ensures QuaternionFromArray([0, 1, 2, 3]) == Quaternion(Vector3(0, 1, 2), 3)
  {
  }

  /** The six rotation conventions an angle triple can be read in. */
  datatype Basis = IntraXYZ | IntraZXZ | IntraZYX | ExtraXYZ | ExtraZXZ | ExtraZYX

  predicate Intrinsic(b: Basis) {
    b.IntraXYZ? || b.IntraZXZ? || b.IntraZYX?
  }

  /** Euler angles `a`, `b`, `c` read in `basis` (a type parameter in the
      source, a tag here). */
  datatype EulerAngles<T> = EulerAngles(a: T, b: T, c: T, basis: Basis)

  /** `From<[T; 3]>`: the angles by position, in any basis. */
  function EulerFromArray<T>(arr: seq<T>, basis: Basis): (e: EulerAngles<T>)
    requires |arr| == 3
    ensures e.basis == basis
    ensures EulerToArray(e) == arr
  {
    EulerAngles(arr[0], arr[1], arr[2], basis)
  }

  /** `Into<[T; 3]>`: the angles by position. */
  function EulerToArray<T>(e: EulerAngles<T>): (arr: seq<T>)
    ensures |arr| == 3
    ensures arr[0] == e.a && arr[1] == e.b && arr[2] == e.c
  {
    [e.a, e.b, e.c]
  }

  /** Euler array conversion round-trips both ways. */
  lemma EulerRoundTrip<T>(e: EulerAngles<T>, arr: seq<T>, basis: Basis)
    requires |arr| == 3
    ensures EulerFromArray(EulerToArray(e), e.basis) == e
    ensures EulerToArray(EulerFromArray(arr, basis)) == arr
  {
  }

  /** `[1, 3, 5]` read as extrinsic XYZ angles converts back to `[1, 3, 5]`. */
  lemma EulerExample()
    ensures EulerToArray(EulerFromArray([1, 3, 5], ExtraXYZ)) == [1, 3, 5]
  {
  }

  /** The three pairs the `reverse!` macro is invoked with. */
  predicate DeclaredReversal(from: Basis, to: Basis) {
    || (from == IntraXYZ && to == ExtraZYX)
    || (from == IntraZXZ && to == ExtraZXZ)
    || (from == IntraZYX && to == ExtraXYZ)
  }

  /** A basis conversion exists from `from` to `to`: `A <-> B` declares
      both directions. */
  predicate Mirror(from: Basis, to: Basis) {
    DeclaredReversal(from, to) || DeclaredReversal(to, from)
  }

  /** Basis conversion: the same rotation in the mirror basis, whose angle
      order is the reverse of the original's. */
  function Reverse<T>(e: EulerAngles<T>, to: Basis): (r: EulerAngles<T>)
    requires Mirror(e.basis, to)
    ensures r.basis == to
    ensures forall i :: 0 <= i < 3 ==> EulerToArray(r)[i] == EulerToArray(e)[2 - i]
  {
    EulerAngles(e.c, e.b, e.a, to)
  }

  /** Mirroring pairs each intrinsic basis with exactly one extrinsic basis,
      symmetrically; no basis mirrors itself. */
  lemma MirrorIsPairing(from: Basis, to: Basis, other: Basis)
    ensures Mirror(from, to) <==> Mirror(to, from)
    ensures Mirror(from, to) ==> Intrinsic(from) != Intrinsic(to)
    ensures Mirror(from, to) && Mirror(from, other) ==> to == other
    ensures exists b :: Mirror(from, b)
  {
    var mirror := match from
      case IntraXYZ => ExtraZYX
      case ExtraZYX => IntraXYZ
      case IntraZXZ => ExtraZXZ
      case ExtraZXZ => IntraZXZ
      case IntraZYX => ExtraXYZ
      case ExtraXYZ => IntraZYX;
    assert Mirror(from, mirror);
  }

  /** Exactly the six declared conversions are defined. */
  lemma MirrorPairs(from: Basis, to: Basis)
    ensures Mirror(from, to) <==>
      (from, to) in {(IntraXYZ, ExtraZYX), (ExtraZYX, IntraXYZ),
                     (IntraZXZ, ExtraZXZ), (ExtraZXZ, IntraZXZ),
                     (IntraZYX, ExtraXYZ), (ExtraXYZ, IntraZYX)}
  {
  }

  /** Converting to the mirror basis and back restores the angles. */
  lemma ReverseInvolution<T>(e: EulerAngles<T>, to: Basis)
    requires Mirror(e.basis, to)
    ensures Mirror(to, e.basis)
    ensures Reverse(Reverse(e, to), e.basis) == e
  {
  }
}

# mint interchange types in Dafny

mint ("math interoperability standard types") defines plain-data vector,
point, matrix, quaternion and Euler-angle types. They are a neutral currency
between graphics and geometry libraries. The library does no arithmetic.
Each type converts to and from fixed-size arrays, and each matrix converts
to and from its opposite-major counterpart. This project models those
conversions as pure Dafny functions over generic element types, and proves
their round-trips, index correspondences and involutions.

- `vector.dfy` (module `Vectors`) holds `Vector2/3/4`, one datatype with three
  constructors. It covers array conversion, `from_slice` with its
  missing-component failure, and `Point2/3` with the point/vector field copy.
- `matrix.dfy` (module `Matrices`) holds the eighteen types that the `matrix!`
  and `turn!` macros generate, as a `MatrixType` tag plus a sequence of
  vector fields. It covers the nested and flat array conversions and the
  transpose conversion. The macro arguments `(inner, outer)` and the
  counterpart named by each `turn!` invocation are tables, and their
  contracts check them against the type names.
- `rotation.dfy` (module `Rotations`) holds the quaternion (vector part first,
  scalar last) and Euler angles with a basis tag. It covers the three
  intrinsic/extrinsic mirror pairs and the angle reversal between them.

A Rust array `[T; N]` becomes a `seq<T>`. The length that Rust enforces
through the type becomes a precondition `|a| == N`. In the same way, the
field types that a struct declaration fixes become the `WellFormed`
predicates.

`from_slice` is not defined in the revision of `src/vector.rs` that this
model follows. Its behaviour comes from its use at `src/matrix.rs:45` and
from the tests at `tests/tests.rs:250-267`: it takes the first N elements,
or fails naming the first component with no element. The panic text is
"Missing y-axis in slice.". `Point2`/`Point3` are likewise defined outside
the modelled files. They are modelled from the tests at
`tests/tests.rs:59-63`.

## Model

| member | source | states |
|---|---|---|
| Vectors.FromArray | src/vector.rs:11-80 | The array length selects Vector2/3/4, and element i becomes the field declared i-th (x=0, y=1, z=2, w=3). |
| Vectors.ToArray | src/vector.rs:20-86 | The array has one element per component, and element i is the i-th declared field. |
| Vectors.FromArrayOfToArray | src/vector.rs:11-86 | Vector to array and back gives the same vector, for every arity. |
| Vectors.ToArrayOfFromArray | src/vector.rs:11-86 | Array to vector and back gives the same array, for every arity. |
| Vectors.FromSlice | tests/tests.rs:250-267 | Succeeds exactly when the slice has at least N elements, and then holds its first N elements in order. Otherwise it names the missing component at position `|s|`. |
| Vectors.FromSliceExact | src/matrix.rs:45 | On a slice of exactly N elements, from_slice succeeds and equals the array conversion. |
| Vectors.FromSlicePrefix | tests/tests.rs:250-261 | On a longer slice, from_slice uses only the first N elements; the rest are ignored. |
| Vectors.FromSliceExample | tests/tests.rs:250-261 | Vector3 from [0,1,2,3] is {x:0, y:1, z:2}. |
| Vectors.FromSliceMissingExample | tests/tests.rs:263-267 | Vector4 from [0] fails on the y component with "Missing y-axis in slice.". |
| Vectors.PointToArray | tests/tests.rs:59-60 | A Point2 gives a 2-element array and a Point3 a 3-element array, holding x, y (and z) at positions 0, 1 (and 2). |
| Vectors.PointFromArray | tests/tests.rs:59-60 | A point built from an array converts back to that array. |
| Vectors.PointToVector | tests/tests.rs:61-63 | Point to vector keeps the coordinates in order. |
| Vectors.PointFromVector | tests/tests.rs:61-63 | Vector2/Vector3 to point keeps the coordinates in order. |
| Vectors.PointArrayRoundTrip | tests/tests.rs:59-60 | Point array conversion round-trips both ways. |
| Vectors.PointVectorRoundTrip | tests/tests.rs:62-63 | Point to vector to point, and vector to point to vector, are identities. |
| Matrices.Declared | src/matrix.rs:110-174 | Each matrix! invocation declares inner and outer in 2..4. A row-major RxC type has R fields of C components; a column-major RxC type has C fields of R components. |
| Matrices.Transposed | src/matrix.rs:110-174 | Each turn! invocation pairs a type with the same logical shape in the opposite major order. Field count and field size swap. |
| Matrices.NameShapeCovers | src/matrix.rs:110-174 | Every major order and every shape from 2x2 to 4x4 has a type. |
| Matrices.TransposedInvolution | src/matrix.rs:110-174 | The counterpart of the counterpart is the original type. |
| Matrices.FromNested | src/matrix.rs:17-25 | The result is well formed, and component j of field k is rows[k][j]. |
| Matrices.ToNested | src/matrix.rs:27-31 | The result has outer arrays of inner elements, and rows[k][j] is component j of field k. |
| Matrices.FromNestedOfToNested | src/matrix.rs:17-31 | Matrix to nested array and back gives the same matrix. |
| Matrices.ToNestedOfFromNested | src/matrix.rs:17-31 | Nested array to matrix and back gives the same array. |
| Matrices.BlockField | src/matrix.rs:45 | from_slice on elements [k*n, (k+1)*n) succeeds with this vector. It gives a vector of n components whose component j is flat[k*n + j]. |
| Matrices.FromFlat | src/matrix.rs:41-49 | Total on every array of inner*outer elements: field k owns the elements [k*inner, (k+1)*inner). |
| Matrices.ToFlat | src/matrix.rs:51-58 | The array has inner*outer elements, and flat[k*inner + j] is component j of field k. |
| Matrices.FromFlatOfToFlat | src/matrix.rs:41-58 | Matrix to flat array and back gives the same matrix. |
| Matrices.ToFlatOfFromFlat | src/matrix.rs:41-58 | Flat array to matrix and back gives the same array. |
| Matrices.FlatAgreesWithNested | src/matrix.rs:17-58 | Building from the concatenated nested arrays gives the matrix built from the nested form; the nested form of a matrix built from a flat array is that array cut into consecutive blocks of inner elements. |
| Matrices.NestedBlockOfFlat | src/matrix.rs:27-49 | Array k of the nested form of a matrix built from a flat array is the flat array's elements [k*inner, (k+1)*inner). |
| Matrices.Turn | src/matrix.rs:92-107 | The result has the counterpart type, and component j of its field i is component i of field j of the source. |
| Matrices.TurnPreservesEntries | src/matrix.rs:92-107 | Turning keeps the logical rows x columns and every element's row and column position. |
| Matrices.TurnInvolution | src/matrix.rs:92-107 | Row to column to row, and column to row to column, give back the original matrix. |
| Matrices.TurnExample3 | tests/tests.rs:204-211 | RowMatrix3 rows [1,2,3],[4,5,6],[7,8,9] turn into ColumnMatrix3 columns [1,4,7],[2,5,8],[3,6,9], and back. |
| Matrices.TurnExample2x3 | tests/tests.rs:182-188 | RowMatrix2x3 rows [1,3,5],[2,4,6] turn into ColumnMatrix2x3 columns [1,2],[3,4],[5,6], and back. |
| Matrices.FlatExample | tests/tests.rs:82-85 | The flat form of RowMatrix2x3 [[1,2,3],[4,5,6]] is [1,2,3,4,5,6]. |
| Rotations.QuaternionFromArray | src/rotation.rs:22-29 | [x,y,z,s] gives a Vector3 part (x,y,z) and scalar s, stored unchanged. |
| Rotations.QuaternionToArray | src/rotation.rs:31-35 | The array is the vector part's components followed by the scalar. |
| Rotations.QuaternionRoundTrip | src/rotation.rs:22-35 | Quaternion array conversion round-trips both ways. |
| Rotations.QuaternionLayoutExample | tests/tests.rs:269-278 | {v:(0,1,2), s:3} flattens to [0,1,2,3], and [0,1,2,3] builds it back. |
| Rotations.EulerFromArray | src/rotation.rs:87-96 | The angles built from an array, in whatever basis is asked for, have that array as their array form. |
| Rotations.EulerToArray | src/rotation.rs:98-102 | Element i of the array is the i-th declared angle: a, b, c. |
| Rotations.EulerRoundTrip | src/rotation.rs:87-102 | Euler array conversion round-trips both ways. |
| Rotations.EulerExample | tests/tests.rs:70-73 | [1,3,5] as extrinsic-XYZ angles converts back to [1,3,5]. |
| Rotations.Reverse | src/rotation.rs:104-116 | Defined only between mirror bases. The result is in the target basis, and its angle array is the source's array reversed (middle angle kept, outer two swapped). |
| Rotations.MirrorIsPairing | src/rotation.rs:117-125 | Mirroring is symmetric. Each basis has exactly one mirror, and that mirror is of the other kind (intrinsic vs extrinsic). |
| Rotations.MirrorPairs | src/rotation.rs:117-125 | Exactly IntraXYZ<->ExtraZYX, IntraZXZ<->ExtraZXZ and IntraZYX<->ExtraXYZ are defined, in both directions. |
| Rotations.ReverseInvolution | src/rotation.rs:104-125 | Reversing to the mirror basis and back restores the original angles and basis. |

## Left out

- The `AsRef`/`AsMut` views (src/matrix.rs:33-39, src/matrix.rs:60-66, src/rotation.rs:37-39) reinterpret memory with `transmute`. Dafny has no memory layout to model. The copying conversions above are the values those views are meant to equal.
- serde `Serialize`/`Deserialize` (src/matrix.rs:68-88) and the serde tests: they depend on an external serializer.
- bytemuck `Zeroable`/`Pod` (src/rotation.rs:17-20, src/rotation.rs:82-85): foreign marker traits about byte layout.
- `IntoMint` (src/into_mint.rs, src/matrix.rs:13-15): trait plumbing whose only behaviour is the identity conversion.
- src/lib.rs: an older alias-only revision with a scalar-first quaternion tuple and `DualQuaternion`. The model follows src/rotation.rs (vector first, scalar last).
- The derived `Hash`/`Ord`/`Debug`/`Clone` traits: Dafny's structural equality stands in for `PartialEq`, and values are immutable.
- The angle ranges in the `EulerAngles` doc comments: no code enforces them.
- `#[repr(C)]`, alignment and padding: they are layout concerns with no counterpart here.
- The Euler basis is a Rust type parameter, so converting between non-mirror bases is a compile error. Here the basis is a runtime tag, and `Reverse` requires `Mirror(from, to)` instead.
- The Euler basis is limited to the six conventions the crate defines (`Basis`). The array conversions at src/rotation.rs:87-102 accept any basis type, such as the `f32` basis in tests/tests.rs:343; no modelled property depends on which basis is used.
- The panic of `from_slice` on a short slice becomes the result `Missing(axis)`; `PanicMessage` gives the panic text.

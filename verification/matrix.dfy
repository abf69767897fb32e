/**
 Row-major and column-major matrix interchange types. A matrix is a struct
 of `outer` vector fields (x, y, z, w in order), each with `inner`
 components; every type converts to and from its nested array
 `[[T; inner]; outer]`, its flat array `[T; inner * outer]`, and the type of
 the opposite major order.
 */
module Matrices {
  import opened Vectors

  /** Whether a matrix type's fields are its rows or its columns. */
  datatype Major = Row | Column

  /** The eighteen types the `matrix!` and `turn!` macros are instantiated for. */
  datatype MatrixType =
    | RowMatrix2 | RowMatrix2x3 | RowMatrix2x4
    | RowMatrix3x2 | RowMatrix3 | RowMatrix3x4
    | RowMatrix4x2 | RowMatrix4x3 | RowMatrix4
    | ColumnMatrix2 | ColumnMatrix2x3 | ColumnMatrix2x4
    | ColumnMatrix3x2 | ColumnMatrix3 | ColumnMatrix3x4
    | ColumnMatrix4x2 | ColumnMatrix4x3 | ColumnMatrix4

  /** What a type's name says: its major order and its logical rows x columns
      (`RowMatrixN` and `ColumnMatrixN` are square). */
  datatype Shape = Shape(major: Major, rows: nat, cols: nat)

  function NameShape(t: MatrixType): Shape {
    match t
    case RowMatrix2 => Shape(Row, 2, 2)
    case RowMatrix2x3 => Shape(Row, 2, 3)
    case RowMatrix2x4 => Shape(Row, 2, 4)
    case RowMatrix3x2 => Shape(Row, 3, 2)
    case RowMatrix3 => Shape(Row, 3, 3)
    case RowMatrix3x4 => Shape(Row, 3, 4)
    case RowMatrix4x2 => Shape(Row, 4, 2)
    case RowMatrix4x3 => Shape(Row, 4, 3)
    case RowMatrix4 => Shape(Row, 4, 4)
    case ColumnMatrix2 => Shape(Column, 2, 2)
    case ColumnMatrix2x3 => Shape(Column, 2, 3)
    case ColumnMatrix2x4 => Shape(Column, 2, 4)
    case ColumnMatrix3x2 => Shape(Column, 3, 2)
    case ColumnMatrix3 => Shape(Column, 3, 3)
    case ColumnMatrix3x4 => Shape(Column, 3, 4)
    case ColumnMatrix4x2 => Shape(Column, 4, 2)
    case ColumnMatrix4x3 => Shape(Column, 4, 3)
    case ColumnMatrix4 => Shape(Column, 4, 4)
  }

  /** The storage arguments of a `matrix!` invocation: `(inner, outer)`. */
  datatype Layout = Layout(inner: nat, outer: nat)

  /** The `(inner, outer)` each `matrix!` invocation declares. A row-major
      R x C type has R fields of C components, a column-major one C fields
      of R components. */
  function Declared(t: MatrixType): (l: Layout)
    ensures IsArity(l.inner) && IsArity(l.outer)
    ensures NameShape(t).major == Row ==> l.outer == NameShape(t).rows && l.inner == NameShape(t).cols
    ensures NameShape(t).major == Column ==> l.outer == NameShape(t).cols && l.inner == NameShape(t).rows
  {
    match t
    case RowMatrix2 => Layout(2, 2)
    case RowMatrix2x3 => Layout(3, 2)
    case RowMatrix2x4 => Layout(4, 2)
    case RowMatrix3x2 => Layout(2, 3)
    case RowMatrix3 => Layout(3, 3)
    case RowMatrix3x4 => Layout(4, 3)
    case RowMatrix4x3 => Layout(3, 4)
    case RowMatrix4x2 => Layout(2, 4)
    case RowMatrix4 => Layout(4, 4)
    case ColumnMatrix2 => Layout(2, 2)
    case ColumnMatrix2x3 => Layout(2, 3)
    case ColumnMatrix2x4 => Layout(2, 4)
    case ColumnMatrix3x2 => Layout(3, 2)
    case ColumnMatrix3 => Layout(3, 3)
    case ColumnMatrix3x4 => Layout(3, 4)
    case ColumnMatrix4x2 => Layout(4, 2)
    case ColumnMatrix4x3 => Layout(4, 3)
    case ColumnMatrix4 => Layout(4, 4)
  }

  /** Number of components of each field. */
  function Inner(t: MatrixType): nat {
    Declared(t).inner
  }

  /** Number of fields. */
  function Outer(t: MatrixType): nat {
    Declared(t).outer
  }

  function Flip(major: Major): Major {
    if major == Row then Column else Row
  }

  /** The type each `turn!` invocation converts from: the same logical
      shape in the opposite major order, so its fields are the other
      type's components and vice versa. */
  function Transposed(t: MatrixType): (u: MatrixType)
    ensures NameShape(u) == NameShape(t).(major := Flip(NameShape(t).major))
    ensures Inner(u) == Outer(t) && Outer(u) == Inner(t)
  {
    match t
    case RowMatrix2 => ColumnMatrix2
    case RowMatrix2x3 => ColumnMatrix2x3
    case RowMatrix2x4 => ColumnMatrix2x4
    case RowMatrix3x2 => ColumnMatrix3x2
    case RowMatrix3 => ColumnMatrix3
    case RowMatrix3x4 => ColumnMatrix3x4
    case RowMatrix4x3 => ColumnMatrix4x3
    case RowMatrix4x2 => ColumnMatrix4x2
    case RowMatrix4 => ColumnMatrix4
    case ColumnMatrix2 => RowMatrix2
    case ColumnMatrix2x3 => RowMatrix2x3
    case ColumnMatrix2x4 => RowMatrix2x4
    case ColumnMatrix3x2 => RowMatrix3x2
    case ColumnMatrix3 => RowMatrix3
    case ColumnMatrix3x4 => RowMatrix3x4
    case ColumnMatrix4x2 => RowMatrix4x2
    case ColumnMatrix4x3 => RowMatrix4x3
    case ColumnMatrix4 => RowMatrix4
  }

  /** A type's name determines it. */
  lemma NameShapeInjective(t: MatrixType, u: MatrixType)
    requires NameShape(t) == NameShape(u)
    ensures t == u
  {
  }

  /** Every major order and every shape from 2 x 2 to 4 x 4 has a type. */
  lemma NameShapeCovers(s: Shape)
    requires IsArity(s.rows) && IsArity(s.cols)
    ensures exists t :: NameShape(t) == s
  {
    var candidates := [RowMatrix2, RowMatrix2x3, RowMatrix2x4,
                       RowMatrix3x2, RowMatrix3, RowMatrix3x4,
                       RowMatrix4x2, RowMatrix4x3, RowMatrix4,
                       ColumnMatrix2, ColumnMatrix2x3, ColumnMatrix2x4,
                       ColumnMatrix3x2, ColumnMatrix3, ColumnMatrix3x4,
                       ColumnMatrix4x2, ColumnMatrix4x3, ColumnMatrix4];
    var k := (if s.major == Row then 0 else 9) + 3 * (s.rows - 2) + (s.cols - 2);
    assert NameShape(candidates[k]) == s;
  }

  /** Turning twice names the original type. */
  lemma TransposedInvolution(t: MatrixType)
    ensures Transposed(Transposed(t)) == t
  {
    NameShapeInjective(Transposed(Transposed(t)), t);
  }

  /** A matrix value: its type and its vector fields in declaration order. */
  datatype Matrix<T> = Matrix(kind: MatrixType, fields: seq<Vector<T>>)

  /** What the struct declaration guarantees: `outer` fields, each a vector
      with `inner` components. */
  predicate WellFormed<T>(m: Matrix<T>) {
    && |m.fields| == Outer(m.kind)
    && forall k :: 0 <= k < |m.fields| ==> Dim(m.fields[k]) == Inner(m.kind)
  }

  /** The logical element at (`row`, `col`), whatever the storage order. */
  function Entry<T>(m: Matrix<T>, row: nat, col: nat): T
    requires WellFormed(m)
    requires row < NameShape(m.kind).rows && col < NameShape(m.kind).cols
  {
    if NameShape(m.kind).major == Row then At(m.fields[row], col) else At(m.fields[col], row)
  }

  /** Two well-formed matrices of one type with the same components are equal. */
  lemma MatrixExtensionality<T>(a: Matrix<T>, b: Matrix<T>)
    requires WellFormed(a) && WellFormed(b) && a.kind == b.kind
    requires forall k, j :: 0 <= k < Outer(a.kind) && 0 <= j < Inner(a.kind) ==>
      At(a.fields[k], j) == At(b.fields[k], j)
    ensures a == b
  {
    forall k | 0 <= k < Outer(a.kind)
      ensures a.fields[k] == b.fields[k]
    {
      Extensionality(a.fields[k], b.fields[k]);
    }
  }

  // ----- nested array form -----

  /** `rows` is an array of `outer` arrays of `inner` elements. */
  predicate IsNested<T>(rows: seq<seq<T>>, inner: nat, outer: nat) {
    && |rows| == outer
    && forall k :: 0 <= k < |rows| ==> |rows[k]| == inner
  }

  /** `From<[[T; inner]; outer]>`: field k is the vector built from array k. */
  function FromNested<T>(t: MatrixType, rows: seq<seq<T>>): (m: Matrix<T>)
    requires IsNested(rows, Inner(t), Outer(t))
    ensures WellFormed(m) && m.kind == t
    ensures forall k, j :: 0 <= k < Outer(t) && 0 <= j < Inner(t) ==> At(m.fields[k], j) == rows[k][j]
  {
    Matrix(t, seq(Outer(t), k requires 0 <= k < Outer(t) => FromArray(rows[k])))
  }

  /** `From<Matrix> for [[T; inner]; outer]`: the array of each field's array. */
  function ToNested<T>(m: Matrix<T>): (rows: seq<seq<T>>)
    requires WellFormed(m)
    ensures IsNested(rows, Inner(m.kind), Outer(m.kind))
    ensures forall k, j :: 0 <= k < Outer(m.kind) && 0 <= j < Inner(m.kind) ==> rows[k][j] == At(m.fields[k], j)
  {
    seq(|m.fields|, k requires 0 <= k < |m.fields| => ToArray(m.fields[k]))
  }

  /** Nested form of a matrix converts back to the matrix. */
  lemma FromNestedOfToNested<T>(m: Matrix<T>)
    requires WellFormed(m)
    ensures FromNested(m.kind, ToNested(m)) == m
  {
    MatrixExtensionality(FromNested(m.kind, ToNested(m)), m);
  }

  /** A nested array converts to a matrix and back unchanged. */
  lemma ToNestedOfFromNested<T>(t: MatrixType, rows: seq<seq<T>>)
    requires IsNested(rows, Inner(t), Outer(t))
    ensures ToNested(FromNested(t, rows)) == rows
  {
    var back := ToNested(FromNested(t, rows));
    forall k | 0 <= k < Outer(t)
      ensures back[k] == rows[k]
    {
    }
  }

  // ----- flat array form -----

  /** The arrays of `ss` one after another. */
  function Concat<T>(ss: seq<seq<T>>): seq<T> {
    if ss == [] then [] else ss[0] + Concat(ss[1..])
  }

  /** Concatenating `|ss|` arrays of `n` elements gives `|ss| * n` elements. */
  lemma {:induction false} ConcatLength<T>(ss: seq<seq<T>>, n: nat)
    requires forall k :: 0 <= k < |ss| ==> |ss[k]| == n
    ensures |Concat(ss)| == |ss| * n
  {
    if ss != [] {
      ConcatLength(ss[1..], n);
    }
  }

  /** Element `j` of array `k` sits at position `k * n + j` of the concatenation. */
  ghost predicate Placed<T>(ss: seq<seq<T>>, n: nat, k: nat, j: nat)
    requires k < |ss| && j < |ss[k]|
  {
    k * n + j < |Concat(ss)| && Concat(ss)[k * n + j] == ss[k][j]
  }

  /** Concatenating arrays of `n` elements places each element as `Placed` says. */
  lemma {:induction false} ConcatAt<T>(ss: seq<seq<T>>, n: nat, k: nat, j: nat)
    requires forall i :: 0 <= i < |ss| ==> |ss[i]| == n
    requires k < |ss| && j < n
    ensures Placed(ss, n, k, j)
  {
    ConcatLength(ss, n);
    BlockFits(k, n, |ss|);
    if k > 0 {
      var rest := ss[1..];
      ConcatAt(rest, n, k - 1, j);
      assert k * n + j == n + ((k - 1) * n + j);
      assert Concat(ss) == ss[0] + Concat(rest);
    }
  }

  /** Every element of every array, at its position in the concatenation. */
  lemma ConcatUniform<T>(ss: seq<seq<T>>, n: nat)
    requires forall k :: 0 <= k < |ss| ==> |ss[k]| == n
    ensures forall k: nat, j: nat {:trigger ss[k][j]} :: k < |ss| && j < n ==> Placed(ss, n, k, j)
  {
    forall k: nat, j: nat | k < |ss| && j < n
      ensures Placed(ss, n, k, j)
    {
      ConcatAt(ss, n, k, j);
    }
  }

  /** The `k`-th block of `n` elements of a flat array fits inside it. */
  lemma BlockFits(k: nat, n: nat, outer: nat)
    requires k < outer
    ensures (k + 1) * n <= n * outer
  {
  }

  /** Field `k` of a flat array: the vector read by `from_slice` from the
      elements `[k * n, (k + 1) * n)`; the slice is never short. */
  function BlockField<T>(flat: seq<T>, n: nat, k: nat): (v: Vector<T>)
    requires IsArity(n) && (k + 1) * n <= |flat|
    ensures FromSlice(n, flat[k * n .. (k + 1) * n]) == Ok(v)
    ensures Dim(v) == n
    ensures forall j :: 0 <= j < n ==> At(v, j) == flat[k * n + j]
  {
    var r := FromSlice(n, flat[k * n .. (k + 1) * n]);
    r.value
  }

  /** `From<[T; inner * outer]>`: field `k` owns the elements
      `[k * inner, (k + 1) * inner)`. */
  function FromFlat<T>(t: MatrixType, flat: seq<T>): (m: Matrix<T>)
    requires |flat| == Inner(t) * Outer(t)
    ensures WellFormed(m) && m.kind == t
    ensures forall k, j :: 0 <= k < Outer(t) && 0 <= j < Inner(t) ==>
      At(m.fields[k], j) == flat[k * Inner(t) + j]
  {
    Matrix(t, seq(Outer(t), k requires 0 <= k < Outer(t) =>
      BlockFits(k, Inner(t), Outer(t)); BlockField(flat, Inner(t), k)))
  }

  /** `From<Matrix> for [T; inner * outer]`: every field's components in
      order, field after field. */
  function ToFlat<T>(m: Matrix<T>): (flat: seq<T>)
    requires WellFormed(m)
    ensures |flat| == Inner(m.kind) * Outer(m.kind)
    ensures forall k, j :: 0 <= k < Outer(m.kind) && 0 <= j < Inner(m.kind) ==>
      flat[k * Inner(m.kind) + j] == At(m.fields[k], j)
  {
    ConcatLength(ToNested(m), Inner(m.kind));
    ConcatUniform(ToNested(m), Inner(m.kind));
    Concat(ToNested(m))
  }

  /** Every position of a flat array lies in exactly one field's block. */
  lemma Split(p: nat, n: nat, outer: nat)
    requires 0 < n && p < n * outer
    ensures p / n < outer && p % n < n
    ensures p == (p / n) * n + p % n
  {
  }

  /** Flat form of a matrix converts back to the matrix. */
  lemma FromFlatOfToFlat<T>(m: Matrix<T>)
    requires WellFormed(m)
    ensures FromFlat(m.kind, ToFlat(m)) == m
  {
    var back := FromFlat(m.kind, ToFlat(m));
    forall k | 0 <= k < Outer(m.kind)
      ensures back.fields[k] == m.fields[k]
    {
      FieldOfToFlat(m, back, k);
    }
  }

  /** One field of the matrix rebuilt from a flat form. */
  lemma FieldOfToFlat<T>(m: Matrix<T>, back: Matrix<T>, k: nat)
    requires WellFormed(m) && k < Outer(m.kind)
    requires back == FromFlat(m.kind, ToFlat(m))
    ensures back.fields[k] == m.fields[k]
  {
    var n := Inner(m.kind);
    var flat := ToFlat(m);
    forall j | 0 <= j < n
      ensures At(back.fields[k], j) == At(m.fields[k], j)
    {
      assert At(back.fields[k], j) == flat[k * n + j];
    }
    Extensionality(back.fields[k], m.fields[k]);
  }

  /** A flat array converts to a matrix and back unchanged. */
  lemma {:induction false} ToFlatOfFromFlat<T>(t: MatrixType, flat: seq<T>)
    requires |flat| == Inner(t) * Outer(t)
    ensures ToFlat(FromFlat(t, flat)) == flat
  {
    var m := FromFlat(t, flat);
    var back := ToFlat(m);
    var n := Inner(t);
    forall p | 0 <= p < |flat|
      ensures back[p] == flat[p]
    {
      Split(p, n, Outer(t));
      var k, j := p / n, p % n;
      assert back[k * n + j] == At(m.fields[k], j) == flat[k * n + j];
    }
  }

  /** The flat form is the nested form's arrays concatenated: building from
      the concatenation gives the matrix built from the nested form, and the
      nested form of a matrix built from a flat array is that array cut into
      blocks of `inner` elements. */
  lemma FlatAgreesWithNested<T>(t: MatrixType, rows: seq<seq<T>>, flat: seq<T>)
    requires IsNested(rows, Inner(t), Outer(t))
    requires |flat| == Inner(t) * Outer(t)
    ensures |Concat(rows)| == Inner(t) * Outer(t)
    ensures FromFlat(t, Concat(rows)) == FromNested(t, rows)
    ensures forall k :: 0 <= k < Outer(t) ==>
      (k + 1) * Inner(t) <= |flat| &&
      ToNested(FromFlat(t, flat))[k] == flat[k * Inner(t) .. (k + 1) * Inner(t)]
  {
    ConcatLength(rows, Inner(t));
    ConcatUniform(rows, Inner(t));
    MatrixExtensionality(FromFlat(t, Concat(rows)), FromNested(t, rows));
    forall k | 0 <= k < Outer(t)
      ensures (k + 1) * Inner(t) <= |flat|
      ensures ToNested(FromFlat(t, flat))[k] == flat[k * Inner(t) .. (k + 1) * Inner(t)]
    {
      NestedBlockOfFlat(t, flat, k);
    }
  }

  /** Array `k` of the nested form of a matrix built from a flat array is
      the `k`-th block of `inner` elements. */
  lemma NestedBlockOfFlat<T>(t: MatrixType, flat: seq<T>, k: nat)
    requires |flat| == Inner(t) * Outer(t) && k < Outer(t)
    ensures (k + 1) * Inner(t) <= |flat|
    ensures ToNested(FromFlat(t, flat))[k] == flat[k * Inner(t) .. (k + 1) * Inner(t)]
  {
    var n := Inner(t);
    BlockFits(k, n, Outer(t));
    var m := FromFlat(t, flat);
    var row := ToNested(m)[k];
    var block := flat[k * n .. (k + 1) * n];
    assert |row| == n == |block|;
    forall j | 0 <= j < n
      ensures row[j] == block[j]
    {
      assert row[j] == At(m.fields[k], j) == flat[k * n + j];
    }
  }

  // ----- transposition -----

  /** `turn!`: the matrix of the opposite major order whose field `i` has
      component `j` equal to component `i` of field `j`. */
  function Turn<T>(m: Matrix<T>): (r: Matrix<T>)
    requires WellFormed(m)
    ensures WellFormed(r) && r.kind == Transposed(m.kind)
    ensures forall i, j :: 0 <= i < Inner(m.kind) && 0 <= j < Outer(m.kind) ==>
      At(r.fields[i], j) == At(m.fields[j], i)
  {
    var t := m.kind;
    Matrix(Transposed(t), seq(Inner(t), i requires 0 <= i < Inner(t) =>
      FromArray(seq(Outer(t), j requires 0 <= j < Outer(t) => At(m.fields[j], i)))))
  }

  /** Turning keeps every logical element in its row and column. */
  lemma TurnPreservesEntries<T>(m: Matrix<T>)
    requires WellFormed(m)
    ensures NameShape(Turn(m).kind).rows == NameShape(m.kind).rows
    ensures NameShape(Turn(m).kind).cols == NameShape(m.kind).cols
    ensures forall row: nat, col: nat :: row < NameShape(m.kind).rows && col < NameShape(m.kind).cols ==>
      Entry(Turn(m), row, col) == Entry(m, row, col)
  {
  }

  /** Row to column to row, and column to row to column, give the original. */
  lemma TurnInvolution<T>(m: Matrix<T>)
    requires WellFormed(m)
    ensures Turn(Turn(m)) == m
  {
    TransposedInvolution(m.kind);
    MatrixExtensionality(Turn(Turn(m)), m);
  }

  /** RowMatrix3 with rows [1,2,3], [4,5,6], [7,8,9] turns into the
      ColumnMatrix3 with columns [1,4,7], [2,5,8], [3,6,9], and back. */
  lemma TurnExample3()
    ensures
      var rows := FromNested(RowMatrix3, [[1, 2, 3], [4, 5, 6], [7, 8, 9]]);
      var cols := FromNested(ColumnMatrix3, [[1, 4, 7], [2, 5, 8], [3, 6, 9]]);
      Turn(rows) == cols && Turn(cols) == rows
  {
    var rows := FromNested(RowMatrix3, [[1, 2, 3], [4, 5, 6], [7, 8, 9]]);
    var cols := FromNested(ColumnMatrix3, [[1, 4, 7], [2, 5, 8], [3, 6, 9]]);
    MatrixExtensionality(Turn(rows), cols);
    TurnInvolution(rows);
  }

  /** RowMatrix2x3 with rows [1,3,5], [2,4,6] turns into the ColumnMatrix2x3
      with columns [1,2], [3,4], [5,6], and back. */
  lemma TurnExample2x3()
    ensures
      var rows := FromNested(RowMatrix2x3, [[1, 3, 5], [2, 4, 6]]);
      var cols := FromNested(ColumnMatrix2x3, [[1, 2], [3, 4], [5, 6]]);
      Turn(rows) == cols && Turn(cols) == rows
  {
    var rows := FromNested(RowMatrix2x3, [[1, 3, 5], [2, 4, 6]]);
    var cols := FromNested(ColumnMatrix2x3, [[1, 2], [3, 4], [5, 6]]);
    MatrixExtensionality(Turn(rows), cols);
    TurnInvolution(rows);
  }

  /** The flat form of RowMatrix2x3 [[1,2,3],[4,5,6]] is [1,2,3,4,5,6]. */
  lemma FlatExample()
    ensures ToFlat(FromNested(RowMatrix2x3, [[1, 2, 3], [4, 5, 6]])) == [1, 2, 3, 4, 5, 6]
  {
    var m := FromNested(RowMatrix2x3, [[1, 2, 3], [4, 5, 6]]);
    var flat := ToFlat(m);
    assert flat[0 * 3 + 0] == 1 && flat[0 * 3 + 1] == 2 && flat[0 * 3 + 2] == 3;
    assert flat[1 * 3 + 0] == 4 && flat[1 * 3 + 1] == 5 && flat[1 * 3 + 2] == 6;
  }
}

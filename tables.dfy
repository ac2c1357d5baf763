/** Row-major multi-dimensional tables of reals, the way numpy stores an
    `ndarray`: a flat buffer plus a shape. Indexing with a prefix of the
    shape's length selects a contiguous block of the buffer. */
module Tables {
  import opened Basics

  /** Number of cells of an array with the given shape (numpy's `size`). */
  function Product(shape: seq<nat>): (r: nat)
    ensures AllPositive(shape) ==> r > 0
    ensures |shape| == 1 ==> r == shape[0]
  {
    if shape == [] then 1 else shape[0] * Product(shape[1..])
  }

  predicate AllPositive(shape: seq<nat>)
  {
    forall i :: 0 <= i < |shape| ==> shape[i] > 0
  }

  /** Every component of `idx` is a valid non-negative index of its dimension. */
  predicate InRange(shape: seq<nat>, idx: seq<int>)
  {
    |idx| <= |shape| && forall i :: 0 <= i < |idx| ==> 0 <= idx[i] < shape[i]
  }

  /** Position in the flat buffer of the first cell selected by `idx`. */
  function Offset(shape: seq<nat>, idx: seq<int>): nat
    requires InRange(shape, idx)
  {
    if idx == [] then 0
    else idx[0] * Product(shape[1..]) + Offset(shape[1..], idx[1..])
  }

  /** Number of cells selected by the index prefix `idx`. */
  function BlockLen(shape: seq<nat>, idx: seq<int>): nat
    requires InRange(shape, idx)
  {
    Product(shape[|idx|..])
  }

  /** The block selected by an in-range index lies inside the buffer. */
  lemma {:induction false} BlockFits(shape: seq<nat>, idx: seq<int>)
    requires InRange(shape, idx)
    ensures Offset(shape, idx) + BlockLen(shape, idx) <= Product(shape)
  {
    if idx != [] {
      var tail := shape[1..];
      assert InRange(tail, idx[1..]);
      BlockFits(tail, idx[1..]);
      assert tail[|idx[1..]|..] == shape[|idx|..];
      var p := Product(tail);
      assert Offset(tail, idx[1..]) + BlockLen(shape, idx) <= p;
      assert idx[0] * p + p <= shape[0] * p by {
        assert idx[0] + 1 <= shape[0];
        MulMonotone(idx[0] + 1, shape[0], p);
      }
    }
  }

  lemma MulMonotone(a: nat, b: nat, c: nat)
    requires a <= b
    ensures a * c <= b * c
  {
  }

  /** Two different full-length in-range indices address different cells:
      writing through one index never touches another. */
  lemma {:induction false} OffsetInjective(shape: seq<nat>, i: seq<int>, j: seq<int>)
    requires |i| == |j| == |shape|
    requires InRange(shape, i) && InRange(shape, j)
    requires i != j
    ensures Offset(shape, i) != Offset(shape, j)
  {
    var tail := shape[1..];
    assert InRange(tail, i[1..]) && InRange(tail, j[1..]);
    var p := Product(tail);
    var ri, rj := Offset(tail, i[1..]), Offset(tail, j[1..]);
    BlockFits(tail, i[1..]);
    BlockFits(tail, j[1..]);
    assert tail[|i[1..]|..] == [];
    assert ri < p && rj < p;
    assert Offset(shape, i) == i[0] * p + ri;
    assert Offset(shape, j) == j[0] * p + rj;
    if i[0] == j[0] {
      assert i == [i[0]] + i[1..] && j == [j[0]] + j[1..];
      OffsetInjective(tail, i[1..], j[1..]);
    } else if i[0] < j[0] {
      SeparateBlocks(i[0], j[0], p, ri, rj);
    } else {
      SeparateBlocks(j[0], i[0], p, rj, ri);
    }
  }

  lemma SeparateBlocks(a: nat, b: nat, p: nat, ra: nat, rb: nat)
    requires a < b && ra < p
    ensures a * p + ra < b * p + rb
  {
    MulMonotone(a + 1, b, p);
    assert (a + 1) * p == a * p + p;
  }

  /** The cells of `q` selected by the index prefix `idx` (numpy `q[idx]`, flattened). */
  function Block(q: seq<real>, shape: seq<nat>, idx: seq<int>): (r: seq<real>)
    requires |q| == Product(shape) && InRange(shape, idx)
    ensures |r| == BlockLen(shape, idx)
    ensures Offset(shape, idx) + |r| <= |q|
    ensures forall j :: 0 <= j < |r| ==> r[j] == q[Offset(shape, idx) + j]
  {
    BlockFits(shape, idx);
    q[Offset(shape, idx)..Offset(shape, idx) + BlockLen(shape, idx)]
  }

  /** numpy's `argmax` on a flattened block: the FIRST index of a maximal value. */
  function Argmax(row: seq<real>): (r: nat)
    requires |row| > 0
    ensures r < |row|
    ensures forall j :: 0 <= j < |row| ==> row[j] <= row[r]
    ensures forall j :: 0 <= j < r ==> row[j] < row[r]
  {
    if |row| == 1 then 0
    else
      var k := Argmax(row[..|row| - 1]);
      if row[|row| - 1] > row[k] then |row| - 1 else k
  }

  /** numpy's `max` over a block. */
  function Max(row: seq<real>): (r: real)
    requires |row| > 0
    ensures forall j :: 0 <= j < |row| ==> row[j] <= r
    ensures exists j :: 0 <= j < |row| && row[j] == r
  {
    row[Argmax(row)]
  }

  /** A buffer of `n` zeros (numpy's `zeros`). */
  function Zeros(n: nat): (r: seq<real>)
    ensures |r| == n && forall j :: 0 <= j < n ==> r[j] == 0.0
  {
    seq(n, _ => 0.0)
  }

  /** numpy's normalisation of one integer index into a dimension of size `n`:
      negative indices count from the end, anything else outside is an IndexError. */
  function NormalizeIndex(i: int, n: nat): (r: Option<nat>)
    ensures r.Some? <==> -(n as int) <= i < n
    ensures r.Some? ==> r.value < n && (r.value == i || r.value == i + n)
    ensures 0 <= i < n ==> r == Some(i)
  {
    if 0 <= i < n then Some(i)
    else if -(n as int) <= i < 0 then Some(i + n)
    else None
  }
}

/**
 * The two NumPy grid builders the mapper relies on: `linspace` (evenly
 * spaced values, both endpoints included) and `meshgrid` (two coordinate
 * matrices in the row-major (latitude, longitude) layout).
 */
module Grids {

  /** A rectangular grid of `rows` rows, each holding `cols` entries. */
  predicate IsShape<T>(g: seq<seq<T>>, rows: nat, cols: nat) {
    |g| == rows && forall j :: 0 <= j < rows ==> |g[j]| == cols
  }

  /** Two grids with the same number of rows and the same length row by row. */
  predicate SameShape<A, B>(a: seq<seq<A>>, b: seq<seq<B>>) {
    |a| == |b| && forall j :: 0 <= j < |a| ==> |a[j]| == |b[j]|
  }

  /** The gap between consecutive values of `linspace(start, stop, num)`. */
  function Step(start: real, stop: real, num: nat): real
    requires num >= 2
  {
    (stop - start) / ((num - 1) as real)
  }

  /** `num - 1` gaps of `Step` span exactly from `start` to `stop`. */
  lemma StepSpan(start: real, stop: real, num: nat)
    requires num >= 2
    ensures ((num - 1) as real) * Step(start, stop, num) == stop - start
  {
  }

  /**
   * `numpy.linspace(start, stop, num)` over the reals: the value at index
   * `i` is `start + i * step`; no values for `num == 0`, just `start` for
   * `num == 1`.
   */
  function Linspace(start: real, stop: real, num: nat): (r: seq<real>)
    ensures |r| == num
    ensures num >= 1 ==> r[0] == start
    ensures num >= 2 ==> r[num - 1] == stop
  {
    if num <= 1 then seq(num, _ => start)
    else
      StepSpan(start, stop, num);
      seq(num, i requires 0 <= i < num => start + (i as real) * Step(start, stop, num))
  }

  /** Consecutive values are exactly one `Step` apart. */
  lemma LinspaceSpacing(start: real, stop: real, num: nat, i: nat)
    requires num >= 2 && i < num - 1
    ensures Linspace(start, stop, num)[i + 1] - Linspace(start, stop, num)[i] == Step(start, stop, num)
  {
  }

  /**
   * With at least two points the values run strictly upwards when
   * `start < stop` and strictly downwards when `start > stop`.
   */
  lemma {:induction false} LinspaceStrictlyMonotone(start: real, stop: real, num: nat, i: nat, k: nat)
    requires num >= 2 && i < k < num
    ensures start < stop ==> Linspace(start, stop, num)[i] < Linspace(start, stop, num)[k]
    ensures start > stop ==> Linspace(start, stop, num)[i] > Linspace(start, stop, num)[k]
  {
    var r, s := Linspace(start, stop, num), Step(start, stop, num);
    var d := (k - i) as real;
    assert r[k] - r[i] == d * s;
    if start < stop {
      assert s > 0.0;
      assert d * s > 0.0;
    } else if start > stop {
      assert s < 0.0;
      assert d * s < 0.0;
    }
  }

  /**
   * `Linspace` is the only sequence that starts at `start` and moves by
   * exactly one `Step` at a time: uniform spacing and the first value
   * determine every value.
   */
  lemma {:induction false} LinspaceUnique(s: seq<real>, start: real, stop: real, num: nat)
    requires num >= 2 && |s| == num && s[0] == start
    requires forall i :: 0 <= i < num - 1 ==> s[i + 1] - s[i] == Step(start, stop, num)
    ensures s == Linspace(start, stop, num)
  {
    var r := Linspace(start, stop, num);
    forall k | 0 <= k < num
      ensures s[k] == r[k]
    {
      UniformPrefix(s, start, Step(start, stop, num), k);
    }
  }

  /** Induction step of `LinspaceUnique`: after `k` equal gaps the value is `start + k * step`. */
  lemma {:induction false} UniformPrefix(s: seq<real>, start: real, step: real, k: nat)
    requires k < |s| && s[0] == start
    requires forall i :: 0 <= i < |s| - 1 ==> s[i + 1] - s[i] == step
    ensures s[k] == start + (k as real) * step
  {
    if k > 0 {
      UniformPrefix(s, start, step, k - 1);
      assert s[k] == s[k - 1] + step;
    }
  }

  /**
   * Swapping the endpoints reverses the sequence: `linspace(hi, lo, n)` is
   * `linspace(lo, hi, n)` read backwards (for at least two points; with
   * one point each call returns its own `start`).
   */
  lemma LinspaceReversed(lo: real, hi: real, num: nat, k: nat)
    requires num >= 2 && k < num
    ensures Linspace(hi, lo, num)[k] == Linspace(lo, hi, num)[num - 1 - k]
  {
    var d := Step(lo, hi, num);
    assert Step(hi, lo, num) == -d;
    StepSpan(lo, hi, num);
    calc {
      Linspace(lo, hi, num)[num - 1 - k];
      lo + ((num - 1 - k) as real) * d;
      lo + ((num - 1) as real) * d - (k as real) * d;
      hi - (k as real) * d;
      Linspace(hi, lo, num)[k];
    }
  }

  /** The two coordinate matrices of `numpy.meshgrid(xs, ys)`. */
  datatype Mesh = Mesh(xx: seq<seq<real>>, yy: seq<seq<real>>)

  /**
   * `numpy.meshgrid(xs, ys)`: both matrices have `|ys|` rows of `|xs|`
   * entries; every row of `xx` is `xs` and every column of `yy` is `ys`.
   */
  function MeshGrid(xs: seq<real>, ys: seq<real>): (m: Mesh)
    ensures IsShape(m.xx, |ys|, |xs|) && IsShape(m.yy, |ys|, |xs|)
    ensures forall j, i :: 0 <= j < |ys| && 0 <= i < |xs| ==> m.xx[j][i] == xs[i] && m.yy[j][i] == ys[j]
  {
    Mesh(seq(|ys|, _ => xs), seq(|ys|, j requires 0 <= j < |ys| => seq(|xs|, _ => ys[j])))
  }

  /** Column `i` of a grid, `g[:, i]` in NumPy. */
  function Column(g: seq<seq<real>>, i: nat): (c: seq<real>)
    requires forall j :: 0 <= j < |g| ==> i < |g[j]|
    ensures |c| == |g| && forall j :: 0 <= j < |g| ==> c[j] == g[j][i]
  {
    seq(|g|, j requires 0 <= j < |g| => g[j][i])
  }

  /**
   * The axes are recovered from the mesh as the plot does it: the first
   * row of `xx` is `xs` and the first column of `yy` is `ys`.
   */
  lemma MeshGridAxes(xs: seq<real>, ys: seq<real>)
    requires |xs| > 0 && |ys| > 0
    ensures MeshGrid(xs, ys).xx[0] == xs
    ensures Column(MeshGrid(xs, ys).yy, 0) == ys
  {
  }
}

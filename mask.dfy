/**
 * Binary masks: the thresholded picture (`target`) and the residual that
 * strokes paint out. A mask is read as rows of booleans, `g[y][x]` true for a
 * foreground ("ink") pixel, which is how the program tests `residual[y, x] > 0`.
 */
module Mask {

  /** A pixel coordinate: `x` is the column, `y` the row. */
  datatype Pixel = Pixel(x: int, y: int)

  type Grid = seq<seq<bool>>

  predicate InBounds(g: Grid, p: Pixel) {
    0 <= p.y < |g| && 0 <= p.x < |g[p.y]|
  }

  /** `p` is inside the mask and is a foreground pixel. */
  predicate Ink(g: Grid, p: Pixel) {
    InBounds(g, p) && g[p.y][p.x]
  }

  /** The mask is an h-by-w rectangle, as every image array is. */
  predicate Rect(g: Grid) {
    forall y :: 0 <= y < |g| ==> |g[y]| == |g[0]|
  }

  predicate SameShape(a: Grid, b: Grid) {
    |a| == |b| && forall y :: 0 <= y < |a| ==> |a[y]| == |b[y]|
  }

  /** `a` has the shape of `b` and every foreground pixel of `a` is one of `b`. */
  ghost predicate Within(a: Grid, b: Grid) {
    SameShape(a, b) && forall p :: Ink(a, p) ==> Ink(b, p)
  }

  /** The foreground pixels of the first `n` columns of row `y`, left to right. */
  function FgRow(g: Grid, y: nat, n: nat): seq<Pixel>
    requires y < |g| && n <= |g[y]|
  {
    if n == 0 then []
    else FgRow(g, y, n - 1) + (if g[y][n - 1] then [Pixel(n - 1, y)] else [])
  }

  /** The foreground pixels of the first `n` rows, in row-major order. */
  function FgRows(g: Grid, n: nat): seq<Pixel>
    requires n <= |g|
  {
    if n == 0 then [] else FgRows(g, n - 1) + FgRow(g, n - 1, |g[n - 1]|)
  }

  /** All foreground pixels in row-major order: the pairs `np.where(mask > 0)` yields. */
  function Foreground(g: Grid): seq<Pixel> {
    FgRows(g, |g|)
  }

  /**
   * The mask after clearing the footprint `fp`: every pixel of `fp` inside the
   * mask becomes background, pixels of `fp` outside it are ignored (clipped),
   * and nothing else changes.
   */
  function Erase(g: Grid, fp: seq<Pixel>): (r: Grid)
    ensures Within(r, g)
    ensures forall p :: p in fp ==> !Ink(r, p)
    ensures forall p :: Ink(g, p) && p !in fp ==> Ink(r, p)
  {
    seq(|g|, y requires 0 <= y < |g| =>
      seq(|g[y]|, x requires 0 <= x < |g[y]| => g[y][x] && Pixel(x, y) !in fp))
  }

  lemma {:induction false} RowMembers(g: Grid, y: nat, n: nat)
    requires y < |g| && n <= |g[y]|
    ensures forall p :: p in FgRow(g, y, n) <==> p.y == y && 0 <= p.x < n && g[y][p.x]
  {
    if n > 0 {
      RowMembers(g, y, n - 1);
    }
  }

  /** The row-major list holds exactly the foreground pixels of the rows it covers. */
  lemma {:induction false} RowsMembers(g: Grid, n: nat)
    requires n <= |g|
    ensures forall p :: p in FgRows(g, n) <==> p.y < n && Ink(g, p)
  {
    if n > 0 {
      RowsMembers(g, n - 1);
      RowMembers(g, n - 1, |g[n - 1]|);
    }
  }

  /** Clearing pixels never lengthens a row's list; losing one of its pixels shortens it. */
  lemma {:induction false} RowShrinks(a: Grid, b: Grid, y: nat, n: nat)
    requires Within(a, b) && y < |b| && n <= |b[y]|
    ensures |FgRow(a, y, n)| <= |FgRow(b, y, n)|
    ensures (exists x :: 0 <= x < n && Ink(b, Pixel(x, y)) && !Ink(a, Pixel(x, y)))
            ==> |FgRow(a, y, n)| < |FgRow(b, y, n)|
  {
    if n > 0 {
      RowShrinks(a, b, y, n - 1);
      assert a[y][n - 1] ==> Ink(a, Pixel(n - 1, y));
    }
  }

  /** Clearing pixels never lengthens the foreground list; losing one shortens it. */
  lemma {:induction false} RowsShrink(a: Grid, b: Grid, n: nat)
    requires Within(a, b) && n <= |b|
    ensures |FgRows(a, n)| <= |FgRows(b, n)|
    ensures (exists p: Pixel :: 0 <= p.y < n && Ink(b, p) && !Ink(a, p)) ==> |FgRows(a, n)| < |FgRows(b, n)|
  {
    if n > 0 {
      RowsShrink(a, b, n - 1);
      RowShrinks(a, b, n - 1, |b[n - 1]|);
      if exists p: Pixel :: 0 <= p.y < n && Ink(b, p) && !Ink(a, p) {
        var p: Pixel :| 0 <= p.y < n && Ink(b, p) && !Ink(a, p);
        if p.y == n - 1 {
          assert Ink(b, Pixel(p.x, n - 1)) && !Ink(a, Pixel(p.x, n - 1));
        }
      }
    }
  }

  lemma WithinTransitive(a: Grid, b: Grid, c: Grid)
    requires Within(a, b) && Within(b, c)
    ensures Within(a, c)
  {
  }

  /** The foreground count, `len(xs)` in the program, is monotone under clearing. */
  lemma ForegroundShrinks(a: Grid, b: Grid, lost: Pixel)
    requires Within(a, b)
    ensures |Foreground(a)| <= |Foreground(b)|
    ensures Ink(b, lost) && !Ink(a, lost) ==> |Foreground(a)| < |Foreground(b)|
  {
    RowsShrink(a, b, |b|);
  }

  /** The abstract value of a two-dimensional boolean array, row by row. */
  ghost function Snap(r: array2<bool>): (g: Grid)
    reads r
    ensures |g| == r.Length0
    ensures forall y :: 0 <= y < r.Length0 ==> |g[y]| == r.Length1
    ensures forall y, x :: 0 <= y < r.Length0 && 0 <= x < r.Length1 ==> g[y][x] == r[y, x]
  {
    seq(r.Length0, y requires 0 <= y < r.Length0 reads r =>
      seq(r.Length1, x requires 0 <= x < r.Length1 reads r => r[y, x]))
  }

  lemma SnapIs(r: array2<bool>, g: Grid)
    requires |g| == r.Length0
    requires forall y :: 0 <= y < |g| ==> |g[y]| == r.Length1
    requires forall y, x :: 0 <= y < r.Length0 && 0 <= x < r.Length1 ==> g[y][x] == r[y, x]
    ensures Snap(r) == g
  {
    var s := Snap(r);
    forall y | 0 <= y < |g| ensures s[y] == g[y] {
      assert |s[y]| == |g[y]|;
    }
  }
}

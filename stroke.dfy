/**
 * One greedy stroke: scan 16 directions through a pivot pixel, score each by
 * the foreground pixels it meets, keep the first strictly best direction that
 * meets more than MIN_HITS of them, and emit the segment from its first to its
 * last hit. The sample positions `int(cx + cos(a) * t), int(cy + sin(a) * t)`
 * come from a `Sampler`, since the floating-point cosine and sine are outside
 * this model.
 */
module StrokeEngine {
  import opened Options
  import opened Mask

  /** `np.linspace(0, np.pi, 16)`: 16 angles, both 0 and pi included. */
  const ANGLES := 16
  /** The index of the last angle, pi, which spans the same line as angle 0. */
  const LAST_ANGLE := ANGLES - 1
  /** The scan offsets run over `range(-100, 101)`. */
  const REACH := 100
  /** An angle qualifies only with more than this many hits. */
  const MIN_HITS := 10
  /** A step gives up when fewer foreground pixels than this remain. */
  const MIN_FOREGROUND := 20

  /** A stroke `(x1, y1, x2, y2)`, as the canvas stores it. */
  datatype Segment = Segment(x1: int, y1: int, x2: int, y2: int)

  function From(s: Segment): Pixel { Pixel(s.x1, s.y1) }
  function To(s: Segment): Pixel { Pixel(s.x2, s.y2) }

  /** The truncated sample position for a pivot, an angle index and an offset t. */
  type Sampler = (Pixel, nat, int) -> Pixel

  /** The pixels the thick line drawn between two endpoints with a given width covers. */
  type Raster = (Pixel, Pixel, nat) -> seq<Pixel>

  /** The hit list of one sample: the position if it is an in-bounds foreground pixel. */
  function Hit(g: Grid, sample: Sampler, c: Pixel, k: nat, t: int): seq<Pixel> {
    var p := sample(c, k, t);
    if Ink(g, p) then [p] else []
  }

  /** The hits of angle `k` for the offsets lo <= t < hi, in ascending t. */
  function Hits(g: Grid, sample: Sampler, c: Pixel, k: nat, lo: int, hi: int): seq<Pixel>
    decreases hi - lo
  {
    if hi <= lo then [] else Hits(g, sample, c, k, lo, hi - 1) + Hit(g, sample, c, k, hi - 1)
  }

  /** `pts` of angle `k`: its hits over the whole window -REACH <= t <= REACH. */
  function Pts(g: Grid, sample: Sampler, c: Pixel, k: nat): seq<Pixel> {
    Hits(g, sample, c, k, -REACH, REACH + 1)
  }

  /** The `pts` lists of all angles, in the order they are scanned. */
  function Candidates(g: Grid, sample: Sampler, c: Pixel): (all: seq<seq<Pixel>>)
    ensures |all| == ANGLES
    ensures forall k :: 0 <= k < ANGLES ==> all[k] == Pts(g, sample, c, k)
  {
    seq(ANGLES, k requires 0 <= k < ANGLES => Pts(g, sample, c, k))
  }

  /**
   * `w` is the selection rule's choice among the candidates: None when no
   * candidate has more than MIN_HITS hits; otherwise a qualifying candidate
   * whose score no candidate exceeds and that every earlier candidate scores
   * strictly below (the earliest best one).
   */
  ghost predicate IsWinner(all: seq<seq<Pixel>>, w: Option<nat>) {
    match w
    case None => forall j :: 0 <= j < |all| ==> |all[j]| <= MIN_HITS
    case Some(b) =>
      b < |all| && |all[b]| > MIN_HITS &&
      (forall j :: 0 <= j < b ==> |all[j]| < |all[b]|) &&
      (forall j :: 0 <= j < |all| ==> |all[j]| <= |all[b]|)
  }

  /** What `best_score` and `best_line` know after the first `k` candidates. */
  ghost predicate Leader(all: seq<seq<Pixel>>, k: int, bestScore: int, best: Option<nat>) {
    0 <= k <= |all| &&
    match best
    case None => bestScore == 0 && forall j :: 0 <= j < k ==> |all[j]| <= MIN_HITS
    case Some(b) =>
      b < k && bestScore == |all[b]| > MIN_HITS &&
      (forall j :: 0 <= j < b ==> |all[j]| < bestScore) &&
      (forall j :: 0 <= j < k ==> |all[j]| <= bestScore)
  }

  /** The selection loop from candidate `k` on: replace the best only on a strictly higher qualifying score. */
  function Pick(all: seq<seq<Pixel>>, k: nat, bestScore: int, best: Option<nat>): (w: Option<nat>)
    requires Leader(all, k, bestScore, best)
    ensures IsWinner(all, w)
    decreases |all| - k
  {
    if k == |all| then best
    else if |all[k]| > bestScore && |all[k]| > MIN_HITS then Pick(all, k + 1, |all[k]|, Some(k))
    else Pick(all, k + 1, bestScore, best)
  }

  /** The index of the chosen angle, if any angle qualifies. */
  function Winner(all: seq<seq<Pixel>>): (w: Option<nat>)
    ensures IsWinner(all, w)
  {
    Pick(all, 0, 0, None)
  }

  /** The segment from the first to the last entry of a non-empty hit list. */
  function Line(pts: seq<Pixel>): Segment
    requires |pts| > 0
  {
    Segment(pts[0].x, pts[0].y, pts[|pts| - 1].x, pts[|pts| - 1].y)
  }

  /**
   * The stroke a step emits for pivot `c`: none exactly when no angle has more
   * than MIN_HITS hits; otherwise the first-to-last-hit segment of the winning
   * angle, whose two endpoints are foreground pixels of `g`.
   */
  function Stroke(g: Grid, sample: Sampler, c: Pixel): (s: Option<Segment>)
    ensures s.None? <==> forall k :: 0 <= k < ANGLES ==> |Pts(g, sample, c, k)| <= MIN_HITS
    ensures s.Some? ==>
      exists k :: 0 <= k < ANGLES && IsWinner(Candidates(g, sample, c), Some(k)) &&
        s.value == Line(Pts(g, sample, c, k))
    ensures s.Some? ==> Ink(g, From(s.value)) && Ink(g, To(s.value))
  {
    var all := Candidates(g, sample, c);
    var w := Winner(all);
    if w.None? then None
    else
      var k := w.value;
      HitsMembers(g, sample, c, k, -REACH, REACH + 1);
      assert all[k][0] in all[k] && all[k][|all[k]| - 1] in all[k];
      Some(Line(all[k]))
  }

  /** A hit list holds exactly the in-bounds foreground samples of its offsets. */
  lemma {:induction false} HitsMembers(g: Grid, sample: Sampler, c: Pixel, k: nat, lo: int, hi: int)
    ensures forall p :: p in Hits(g, sample, c, k, lo, hi) <==>
      Ink(g, p) && exists t :: lo <= t < hi && sample(c, k, t) == p
    decreases hi - lo
  {
    if lo < hi {
      HitsMembers(g, sample, c, k, lo, hi - 1);
    }
  }

  /** A score never exceeds the number of samples, 201 over the whole window. */
  lemma {:induction false} HitsBound(g: Grid, sample: Sampler, c: Pixel, k: nat, lo: int, hi: int)
    requires lo <= hi
    ensures |Hits(g, sample, c, k, lo, hi)| <= hi - lo
    decreases hi - lo
  {
    if lo < hi {
      HitsBound(g, sample, c, k, lo, hi - 1);
    }
  }

  /** The hit lists can also be built from the front, one offset at a time. */
  lemma {:induction false} HitsFront(g: Grid, sample: Sampler, c: Pixel, k: nat, lo: int, hi: int)
    requires lo < hi
    ensures Hits(g, sample, c, k, lo, hi) == Hit(g, sample, c, k, lo) + Hits(g, sample, c, k, lo + 1, hi)
    decreases hi - lo
  {
    if lo + 1 < hi {
      HitsFront(g, sample, c, k, lo, hi - 1);
    }
  }

  /** The first entry of a hit list is the earliest foreground sample. */
  lemma {:induction false} HitsFirst(g: Grid, sample: Sampler, c: Pixel, k: nat, lo: int, hi: int)
    requires |Hits(g, sample, c, k, lo, hi)| > 0
    ensures exists t :: (lo <= t < hi && Hits(g, sample, c, k, lo, hi)[0] == sample(c, k, t) &&
      Ink(g, sample(c, k, t)) && forall u :: lo <= u < t ==> !Ink(g, sample(c, k, u)))
    decreases hi - lo
  {
    var prefix := Hits(g, sample, c, k, lo, hi - 1);
    if |prefix| > 0 {
      HitsFirst(g, sample, c, k, lo, hi - 1);
    } else {
      HitsMembers(g, sample, c, k, lo, hi - 1);
      forall u | lo <= u < hi - 1 ensures !Ink(g, sample(c, k, u)) {
        assert sample(c, k, u) !in prefix;
      }
    }
  }

  /** The last entry of a hit list is the latest foreground sample. */
  lemma {:induction false} HitsLast(g: Grid, sample: Sampler, c: Pixel, k: nat, lo: int, hi: int)
    requires |Hits(g, sample, c, k, lo, hi)| > 0
    ensures exists t :: (lo <= t < hi &&
      Hits(g, sample, c, k, lo, hi)[|Hits(g, sample, c, k, lo, hi)| - 1] == sample(c, k, t) &&
      Ink(g, sample(c, k, t)) && forall u :: t < u < hi ==> !Ink(g, sample(c, k, u)))
    decreases hi - lo
  {
    if Ink(g, sample(c, k, hi - 1)) {
      assert Hits(g, sample, c, k, lo, hi)[|Hits(g, sample, c, k, lo, hi)| - 1] == sample(c, k, hi - 1);
    } else {
      HitsLast(g, sample, c, k, lo, hi - 1);
    }
  }

  /**
   * Two angles that sample the same positions in opposite order score the same
   * over mirrored windows.
   */
  lemma {:induction false} MirrorScore(g: Grid, sample: Sampler, c: Pixel, ka: nat, kb: nat, lo: int, hi: int)
    requires forall t :: sample(c, kb, t) == sample(c, ka, -t)
    ensures |Hits(g, sample, c, kb, lo, hi)| == |Hits(g, sample, c, ka, 1 - hi, 1 - lo)|
    decreases hi - lo
  {
    if lo < hi {
      MirrorScore(g, sample, c, ka, kb, lo, hi - 1);
      HitsFront(g, sample, c, ka, 1 - hi, 1 - lo);
      assert Hit(g, sample, c, kb, hi - 1) == Hit(g, sample, c, ka, 1 - hi);
    }
  }

  /**
   * The last angle is pi, the first 0: when the last one samples the first
   * one's positions in reverse, its score only ties and it is never chosen.
   */
  lemma LastAngleNeverWins(g: Grid, sample: Sampler, c: Pixel)
    requires forall t :: sample(c, LAST_ANGLE, t) == sample(c, 0, -t)
    ensures Winner(Candidates(g, sample, c)) != Some(LAST_ANGLE)
  {
    var all := Candidates(g, sample, c);
    MirrorScore(g, sample, c, 0, LAST_ANGLE, -REACH, REACH + 1);
    assert |all[LAST_ANGLE]| == |all[0]|;
  }

  /** Collects the foreground pixels of `r` in row-major order (`np.where(r > 0)`). */
  method CollectForeground(r: array2<bool>) returns (fg: seq<Pixel>)
    ensures fg == Foreground(Snap(r))
    ensures forall p :: p in fg <==> Ink(Snap(r), p)
  {
    ghost var g := Snap(r);
    fg := [];
    var y := 0;
    while y < r.Length0
      invariant 0 <= y <= r.Length0
      invariant fg == FgRows(g, y)
    {
      var x := 0;
      while x < r.Length1
        invariant 0 <= x <= r.Length1
        invariant fg == FgRows(g, y) + FgRow(g, y, x)
      {
        if r[y, x] {
          fg := fg + [Pixel(x, y)];
        }
        x := x + 1;
      }
      y := y + 1;
    }
    RowsMembers(g, |g|);
  }

  /** Scans one angle through pivot `c`: `score` counts the hits, `pts` lists them in ascending t. */
  method ScanAngle(r: array2<bool>, sample: Sampler, c: Pixel, k: nat) returns (score: int, pts: seq<Pixel>)
    ensures pts == Pts(Snap(r), sample, c, k)
    ensures score == |pts| <= 2 * REACH + 1
  {
    ghost var g := Snap(r);
    var h, w := r.Length0, r.Length1;
    score, pts := 0, [];
    var t := -REACH;
    while t <= REACH
      invariant -REACH <= t <= REACH + 1
      invariant pts == Hits(g, sample, c, k, -REACH, t)
      invariant score == |pts|
    {
      var p := sample(c, k, t);
      if 0 <= p.x < w && 0 <= p.y < h {
        if r[p.y, p.x] {
          score := score + 1;
          pts := pts + [p];
        }
      }
      t := t + 1;
    }
    HitsBound(g, sample, c, k, -REACH, REACH + 1);
  }

  /** Scans all angles in order and returns the stroke of the winning one, if any. */
  method ChooseStroke(r: array2<bool>, sample: Sampler, c: Pixel) returns (best: Option<Segment>)
    ensures best == Stroke(Snap(r), sample, c)
  {
    ghost var all := Candidates(Snap(r), sample, c);
    var bestScore := 0;
    ghost var bestK: Option<nat> := None;
    best := None;
    var k := 0;
    while k < ANGLES
      invariant 0 <= k <= ANGLES
      invariant Leader(all, k, bestScore, bestK)
      invariant Pick(all, k, bestScore, bestK) == Winner(all)
      invariant best == if bestK.None? then None else Some(Line(all[bestK.value]))
    {
      var score, pts := ScanAngle(r, sample, c, k);
      if score > bestScore && |pts| > MIN_HITS {
        bestScore := score;
        best := Some(Line(pts));
        bestK := Some(k);
      }
      k := k + 1;
    }
  }

  /** Clears the footprint `fp` in `r` in place, ignoring positions outside it (`cv2.line` with colour 0). */
  method ClearFootprint(r: array2<bool>, fp: seq<Pixel>)
    modifies r
    ensures Snap(r) == Erase(old(Snap(r)), fp)
  {
    ghost var g := Snap(r);
    var i := 0;
    while i < |fp|
      invariant 0 <= i <= |fp|
      invariant forall y, x :: 0 <= y < r.Length0 && 0 <= x < r.Length1 ==>
        r[y, x] == (g[y][x] && Pixel(x, y) !in fp[..i])
    {
      var p := fp[i];
      if 0 <= p.x < r.Length1 && 0 <= p.y < r.Length0 {
        r[p.y, p.x] := false;
      }
      assert fp[..i + 1] == fp[..i] + [p];
      i := i + 1;
    }
    assert fp[..i] == fp;
    SnapIs(r, Erase(g, fp));
  }
}

/**
 * The main window's drawing controller: the thresholded target mask, the
 * residual mask that strokes paint out, the pause flag and the step counter,
 * with the operations that start a run, toggle the pause and take one timer step.
 */
module Window {
  import opened Options
  import opened Mask
  import opened StrokeEngine
  import opened Canvas

  /** The largest value the stroke-limit spin box accepts. */
  const MAX_LINES := 19999

  /** The largest value the line-width spin box accepts; its smallest is 1. */
  const MAX_WIDTH := 10

  /** The three named presets of the preset box: portrait, architecture, landscape. */
  datatype PresetName = Portrait | Architecture | Landscape

  /** Gaussian blur kernel size, adaptive-threshold block size and threshold constant. */
  datatype Preset = Preset(blur: int, thBlock: int, thC: int)

  /**
   * The preprocessing parameters of a preset. Each is a legal input to the
   * blur and the adaptive threshold: an odd kernel of at least 1, an odd block
   * of at least 3, and a positive constant, so a flat area thresholds to background.
   */
  function Presets(name: PresetName): (p: Preset)
    ensures p.blur >= 1 && p.blur % 2 == 1
    ensures p.thBlock >= 3 && p.thBlock % 2 == 1
    ensures p.thC > 0
  {
    match name
    case Portrait => Preset(5, 11, 2)
    case Architecture => Preset(3, 15, 3)
    case Landscape => Preset(7, 21, 4)
  }

  /** Both endpoints of every stroke are foreground pixels of `g`. */
  ghost predicate Anchored(lines: seq<Segment>, g: Grid) {
    forall s :: s in lines ==> Ink(g, From(s)) && Ink(g, To(s))
  }

  /** A stroke drawn between two foreground pixels of a residual inside `t` keeps the strokes anchored in `t`. */
  lemma AnchoredAppend(lines: seq<Segment>, s: Segment, g: Grid, t: Grid)
    requires Anchored(lines, t) && Within(g, t)
    requires Ink(g, From(s)) && Ink(g, To(s))
    ensures Anchored(lines + [s], t)
  {
  }

  class MainWindow {
    const canvas: LineCanvas
    /** The thresholded picture of the current run; null before the first start. */
    var target: array2?<bool>
    /** The part of `target` no stroke has covered yet; null before the first start. */
    var residual: array2?<bool>
    var paused: bool
    /** Timer steps taken past the foreground check: it counts steps, not strokes. */
    var total: int

    ghost function Target(): Grid
      reads this`target, target
      requires target != null
    {
      Snap(target)
    }

    ghost function Residual(): Grid
      reads this`residual, residual
      requires residual != null
    {
      Snap(residual)
    }

    /**
     * The residual is a separate copy that stays inside the target; the canvas
     * holds at most `total` strokes, `total` stays within the limit box's range,
     * and every stroke joins two foreground pixels of the target.
     */
    ghost predicate Valid()
      reads this, canvas, target, residual
    {
      (target == null <==> residual == null) &&
      (residual != null ==> target != residual && Within(Residual(), Target())) &&
      |canvas.lines| <= total <= MAX_LINES &&
      (target == null ==> canvas.lines == []) &&
      (target != null ==> Anchored(canvas.lines, Target()))
    }

    constructor()
      ensures Valid() && target == null && residual == null
      ensures !paused && total == 0
      ensures fresh(canvas) && canvas.lines == [] && canvas.size == None && canvas.penWidth == 2
    {
      canvas := new LineCanvas();
      target := null;
      residual := null;
      paused := false;
      total := 0;
    }

    /**
     * Starts or restarts a run. `mask` is the preprocessed picture, None when
     * no image is loaded, in which case nothing happens. Otherwise the target
     * becomes a new array holding the mask, the residual a new copy of it, the
     * canvas is emptied and sized to the image, the counter returns to 0 and
     * the run is unpaused.
     */
    method Start(mask: Option<Grid>, width: int)
      requires Valid()
      requires 1 <= width <= MAX_WIDTH
      requires mask.Some? ==> Rect(mask.value)
      modifies this, canvas
      ensures Valid()
      ensures mask.None? ==> unchanged(this) && unchanged(canvas)
      ensures mask.Some? ==>
        target != null && residual != null && fresh(target) && fresh(residual) &&
        Target() == mask.value && Residual() == mask.value &&
        canvas.lines == [] && total == 0 && !paused && canvas.penWidth == width &&
        canvas.size == Some(Size(if mask.value == [] then 0 else |mask.value[0]|, |mask.value|))
    {
      if mask.None? {
        return;
      }
      var m := mask.value;
      var h := |m|;
      var w := if h == 0 then 0 else |m[0]|;
      var t := new bool[h, w]((y, x) requires 0 <= y < h && 0 <= x < w => m[y][x]);
      var r := new bool[h, w]((y, x) requires 0 <= y < h && 0 <= x < w reads t => t[y, x]);
      canvas.penWidth := width;
      canvas.Reset(Size(w, h));
      target, residual := t, r;
      total := 0;
      paused := false;
      SnapIs(t, m);
      SnapIs(r, m);
      assert Within(m, m);
    }

    /** Flips the pause flag; nothing else changes. */
    method TogglePause()
      requires Valid()
      modifies this`paused
      ensures Valid() && paused == !old(paused)
    {
      paused := !paused;
    }

    /**
     * One timer step with the current limit and width boxes. `pick(n)` stands
     * for `np.random.randint(n)`, `sample` for the truncated positions along an
     * angle, and `raster` for the pixels `cv2.line` covers.
     *
     * Paused, at the limit, or with fewer than MIN_FOREGROUND foreground pixels
     * left, the step changes nothing. Otherwise the counter goes up by exactly
     * one; if a stroke is chosen it is appended to the canvas and its footprint
     * is cleared from the residual, else the residual and the canvas stay as
     * they were. The residual only ever loses foreground pixels, and loses at
     * least one whenever a stroke is emitted.
     */
    method DrawStep(limit: int, width: nat, pick: nat -> nat, sample: Sampler, raster: Raster)
      requires Valid() && residual != null
      requires 1 <= limit <= MAX_LINES
      requires 1 <= width <= MAX_WIDTH
      requires forall n: nat :: 0 < n ==> pick(n) < n
      requires forall a, b, w :: a in raster(a, b, w) && b in raster(a, b, w)
      modifies this, residual, canvas
      ensures Valid()
      ensures target == old(target) && residual == old(residual) && paused == old(paused)
      ensures canvas.size == old(canvas.size) && canvas.penWidth == old(canvas.penWidth)
      ensures
        var g0 := old(Residual());
        var fg := Foreground(g0);
        if old(paused) || old(total) >= limit || |fg| < MIN_FOREGROUND then
          total == old(total) && canvas.lines == old(canvas.lines) && Residual() == g0
        else
          var s := Stroke(g0, sample, fg[pick(|fg|)]);
          total == old(total) + 1 &&
          if s.None? then
            canvas.lines == old(canvas.lines) && Residual() == g0
          else
            canvas.lines == old(canvas.lines) + [s.value] &&
            Residual() == Erase(g0, raster(From(s.value), To(s.value), width))
      ensures Within(Residual(), old(Residual()))
      ensures |canvas.lines| > old(|canvas.lines|) ==>
        |Foreground(Residual())| < |Foreground(old(Residual()))|
    {
      if paused || total >= limit {
        return;
      }
      var fg := CollectForeground(residual);
      if |fg| < MIN_FOREGROUND {
        return;
      }
      var c := fg[pick(|fg|)];
      var best := ChooseStroke(residual, sample, c);
      if best.Some? {
        var s := best.value;
        Commit(s, raster(From(s), To(s), width));
      }
      total := total + 1;
    }

    /**
     * Emits stroke `s`: appends it to the canvas and clears the footprint `fp`
     * of the line drawn for it from the residual. Both endpoints are
     * foreground pixels of the residual and the footprint holds the first one,
     * so the residual loses at least that pixel.
     */
    method Commit(s: Segment, fp: seq<Pixel>)
      requires residual != null && target != null && target != residual
      requires Within(Residual(), Target()) && Anchored(canvas.lines, Target())
      requires Ink(Residual(), From(s)) && Ink(Residual(), To(s)) && From(s) in fp
      modifies residual, canvas
      ensures canvas.lines == old(canvas.lines) + [s]
      ensures canvas.size == old(canvas.size) && canvas.penWidth == old(canvas.penWidth)
      ensures Residual() == Erase(old(Residual()), fp)
      ensures Within(Residual(), Target()) && Anchored(canvas.lines, Target())
      ensures |Foreground(Residual())| < |Foreground(old(Residual()))|
    {
      ghost var g0 := Residual();
      ghost var t0 := Target();
      ghost var lines0 := canvas.lines;
      canvas.Add(s);
      ClearFootprint(residual, fp);
      ForegroundShrinks(Residual(), g0, From(s));
      WithinTransitive(Residual(), g0, t0);
      AnchoredAppend(lines0, s, g0, t0);
    }
  }

  /** Pressing the pause button twice leaves the run exactly as it was. */
  method TogglePauseTwice(w: MainWindow)
    requires w.Valid()
    modifies w`paused
    ensures w.Valid() && w.paused == old(w.paused)
  {
    w.TogglePause();
    w.TogglePause();
  }
}

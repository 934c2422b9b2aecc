# draw_the_picture: a verified model of the greedy stroke engine

`draw_the_picture` turns a photograph into line strokes. The photograph is
thresholded into a binary mask, the *target*. A *residual* copy of it is then
painted out one timer step at a time. Each step picks a random foreground
pivot and scans 16 directions through it, sampling 201 offsets on each. It
keeps the earliest strictly-best direction that meets more than 10
foreground pixels. It emits the segment from that direction's first to its
last hit and clears the drawn line from the residual. The model covers this
engine, the window state around it (`start`, the pause toggle, the step
counter and its limit), the append-only stroke list of the canvas, and the
preset table.

Layout:

- `options.dfy` has the `Option` type.
- `mask.dfy` (module `Mask`) holds the mask values (`Grid`) and the row-major foreground list that `np.where` yields. It also holds `Erase`, the clearing of a line's footprint, the counting lemmas, and `Snap`, the value of a two-dimensional array.
- `stroke.dfy` (module `StrokeEngine`) holds the scan and the selection rule as functions, the read-only methods that run the source's loops over the residual array, and the in-place clearing method.
- `canvas.dfy` (module `Canvas`) holds the `LineCanvas` class.
- `window.dfy` (module `Window`) holds `PRESETS`, `MAX_LINES` and the `MainWindow` class. The class owns `target` and `residual` as `array2?<bool>` fields, null until the first start, and `paused` and `total` as fields. `DrawStep`, `Start` and `TogglePause` update them in place.

Inputs the program takes from outside the model are parameters:

- The sample positions are a `Sampler`, a function of the pivot, the angle index and the offset t. They stand for `int(cx + cos(a) * t), int(cy + sin(a) * t)`. The truncation depends on the pivot, so the sampler is not a table of offsets.
- `np.random.randint(n)` is a `pick` function that returns a value below `n`.
- The pixels `cv2.line` covers are a `Raster` function of the two endpoints and the width. The only assumption about it is that its footprint contains both endpoints.
- The limit and width spin boxes are read when the step runs, so they are parameters of `DrawStep`. The limit is in [1, MAX_LINES] and the width in [1, 10], as their spin boxes allow. `Start` also reads the width box, with the same range.
- The preprocessed mask is a parameter of `Start`. It is `None` when no image is loaded.

Details of the code the model keeps:

- `np.linspace(0, np.pi, 16)` includes both 0 and pi, so the last angle spans the same line as the first. `LastAngleNeverWins` proves that a mirrored last angle can never be chosen.
- Sample positions are truncated toward zero by `int()`.
- `total` grows on every step that passes the 20-pixel check, even when no stroke is emitted, so it counts steps. The preserved invariant is `|canvas.lines| <= total <= MAX_LINES`.

## Model

| member | source | states |
|---|---|---|
| `Mask.RowMembers` | draw_the_picture.py:292 | a row's part of the foreground list holds exactly that row's foreground pixels in the columns scanned |
| `Mask.RowsMembers` | draw_the_picture.py:292 | the row-major foreground list holds exactly the in-bounds foreground pixels of the rows it covers |
| `Mask.RowShrinks` | draw_the_picture.py:292 | clearing pixels never lengthens a row's foreground list, and losing a foreground pixel in that row shortens it |
| `Mask.RowsShrink` | draw_the_picture.py:292 | clearing pixels never lengthens the foreground list, and losing any foreground pixel shortens it |
| `Mask.ForegroundShrinks` | draw_the_picture.py:292-293 | `len(xs)` is monotone when a residual is cleared, and strictly smaller when a foreground pixel was lost |
| `Mask.Erase` | draw_the_picture.py:326-330 | after clearing a footprint the mask stays inside the old one; footprint pixels are background; every other foreground pixel survives |
| `StrokeEngine.CollectForeground` | draw_the_picture.py:292 | returns the foreground pixels of the residual in row-major order; a pixel is in the list iff it is an in-bounds foreground pixel |
| `StrokeEngine.ScanAngle` | draw_the_picture.py:307-317 | for one angle, `pts` is exactly the hit list over t = -100..100 in ascending t, and `score == len(pts)`, at most 201 |
| `StrokeEngine.HitsMembers` | draw_the_picture.py:311-317 | a hit list holds exactly the samples of its offsets that are in-bounds foreground pixels |
| `StrokeEngine.HitsBound` | draw_the_picture.py:311 | a score is at most the number of offsets scanned (201 over the window) |
| `StrokeEngine.HitsFirst` | draw_the_picture.py:317-321 | the first entry of `pts` is the sample at the earliest offset that hits foreground |
| `StrokeEngine.HitsLast` | draw_the_picture.py:317-321 | the last entry of `pts` is the sample at the latest offset that hits foreground |
| `StrokeEngine.Pick` | draw_the_picture.py:301-321 | the selection loop returns None iff no angle has more than 10 hits; otherwise it returns an angle with more than 10 hits that no angle outscores and every earlier angle scores strictly below |
| `StrokeEngine.Winner` | draw_the_picture.py:301-321 | starting from `best_score = 0` and no best line, the chosen angle is the earliest angle of highest score among those with more than 10 hits |
| `StrokeEngine.Stroke` | draw_the_picture.py:306-323 | no stroke iff no angle has more than 10 hits; otherwise the segment from the first to the last hit of the winning angle; both endpoints are foreground pixels of the residual before the step |
| `StrokeEngine.ChooseStroke` | draw_the_picture.py:299-321 | the two nested loops over 16 angles and 201 offsets return exactly `Stroke` of the residual |
| `StrokeEngine.MirrorScore` | draw_the_picture.py:306-317 | two angles that sample the same positions in opposite order get equal scores |
| `StrokeEngine.LastAngleNeverWins` | draw_the_picture.py:299-319 | if angle pi samples angle 0's positions in reverse, angle pi only ties and is never the chosen angle |
| `StrokeEngine.ClearFootprint` | draw_the_picture.py:326-330 | clears the footprint in place; the residual array afterwards is `Erase` of its old contents |
| `Canvas.LineCanvas.constructor` | draw_the_picture.py:103-107 | a new canvas has no strokes, no size and pen width 2 |
| `Canvas.LineCanvas.Reset` | draw_the_picture.py:109-112 | empties the stroke list and records the image size |
| `Canvas.LineCanvas.Add` | draw_the_picture.py:114-116 | appends exactly one stroke and leaves the earlier ones as they were |
| `Window.Presets` | draw_the_picture.py:21-37 | each preset has an odd blur kernel of at least 1, an odd threshold block of at least 3 and a positive threshold constant |
| `Window.MainWindow.constructor` | draw_the_picture.py:225-229 | before any run there is no target or residual, the run is unpaused, the counter is 0 and the canvas is empty |
| `Window.MainWindow.Start` | draw_the_picture.py:262-281 | with no image, nothing changes; otherwise target and residual become new arrays holding the mask, the strokes are emptied, the counter is 0, the run is unpaused, and the pen width and canvas size are set |
| `Window.MainWindow.TogglePause` | draw_the_picture.py:341-342 | flips `paused` and changes nothing else |
| `Window.TogglePauseTwice` | draw_the_picture.py:342 | toggling twice restores `paused` |
| `Window.MainWindow.DrawStep` | draw_the_picture.py:286-336 | see the note below the table |
| `Window.MainWindow.Commit` | draw_the_picture.py:323-330 | appends the stroke, clears its footprint, keeps the residual inside the target and every stroke anchored on target pixels, and strictly lowers the foreground count |

`Window.MainWindow.DrawStep` states the following:

- If the run is paused or `total >= limit`, nothing changes.
- If fewer than 20 foreground pixels remain, nothing changes.
- Otherwise `total` grows by exactly one, and the step uses `Stroke` for the chosen pivot:
  - With no stroke, the lines and the residual are unchanged.
  - With a stroke, that one stroke is appended and the residual becomes `Erase` of its footprint.
- The residual only loses pixels. It loses at least one whenever a stroke is added.
- `Valid()` is kept: the residual stays inside the target, `|lines| <= total <= MAX_LINES`, and every stroke joins two target pixels.

## Left out

- The preprocessing in `preprocess` (draw_the_picture.py:247-257) is not modelled. It is grey conversion, a Gaussian blur and an adaptive threshold inside OpenCV, whose arithmetic is outside the model. `Start` receives its result as a mask.
- Image loading, the file dialogs and PNG export (`ImageView.load`, `open_image`, `export_png`) are file I/O. They are not modelled.
- The Qt widgets, layouts, status labels, and painting with scaling in both `paintEvent`s are UI and floating-point drawing. They are not modelled.
- The floating-point cosine, sine and `linspace` are not modelled. The sample positions they produce are the injected `Sampler`.
- Whether angle pi really mirrors angle 0 depends on how `cy + sin(pi) * t` rounds before truncation. For negative t and a small `cy`, that can land one row higher. So `LastAngleNeverWins` takes the mirror as a hypothesis.
- The thick-line rasterisation of `cv2.line` is not modelled. It is the injected `Raster`, assumed only to cover both endpoints. Pixels it reports outside the image are ignored, like the library's clipping.
- `np.random.randint` is not modelled. It is the injected `pick`.
- The timer pacing (`QTimer`, the interval spin box), `QApplication.processEvents` and the `time.perf_counter` speed display are not modelled. The timer is started only by `start`, so `DrawStep` requires a residual to exist.
- Loading a new image in the middle of a run does not touch `target` or `residual`. The model has no operation for it.

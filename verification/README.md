# ir-mouse: the per-frame tracking decision, in Dafny

`ir-mouse.py` tracks a bright infrared point in webcam frames and moves the
mouse pointer to follow it. This project models the part of `irMouse` that
decides what each frame does. That part covers:

- thresholding the hue, saturation and value channels, and ANDing the value and hue masks;
- the one piece of loop state: the peak location of the previous frame (the `(0,0)` sentinel after a frame with no detection), which starts at the sentinel;
- the sentinel guard: no motion when either location is `(0,0)`;
- the jitter gate: the Euclidean distance must be over 3;
- the piecewise-constant acceleration factor: 1.7, 1.4, 1.2 or 1.0, with strict breakpoints at 20, 9 and 6;
- the pointer formula: the x axis is inverted, the y axis is not, the value is truncated toward zero and clamped to `[0, width] x [0, height]`;
- the loop: it ends with -1 on a failed camera read and with 0 on Esc.

Modules, leaves first:

- `Numeric` (`numeric.dfy`): a square-root oracle for the norm. It also proves that comparing a distance with `k` is the same as comparing the integer squared distance with `k*k`, and defines truncation toward zero.
- `Geometry` (`geometry.dfy`): frame positions (`Pos`) and screen positions (`Ptr`) as separate types, the sentinel `Origin`, the delta and its squared length.
- `Motion` (`motion.dfy`): the detection test, the jitter gate and the scale factor. Each is stated on the real distance, as the source does, and tied to an integer reference definition on the squared distance.
- `PointerMap` (`pointer.dfy`): clamping and the new pointer position.
- `Tracking` (`tracking.dfy`): one frame (`Step`), and the loop as a fold (`RunFrom`/`Run`) over a sequence of read results. `TrackingLoop` is the imperative `while` loop, proved equal to the fold.
- `Threshold` (`threshold.dfy`): `inRange` and `bitwise_and` on masks of 8-bit pixels (255 set, 0 clear).

Inputs that the program reads from devices are parameters here:

- the detected peak location of each frame;
- the pointer position the system reports;
- the screen size;
- whether Esc was pressed;
- whether the camera read succeeded;
- the six slider bounds.

`cv2.norm` is modelled as `root(dx*dx + dy*dy)` for a function `root` that is required to be a non-negative square root (`Numeric.IsSqrt`). The arithmetic is exact real arithmetic.

## Model

| member | source | states |
|---|---|---|
| Geometry.Delta | ir-mouse.py:130 | the delta is the displacement that carries the previous location onto the new one |
| Geometry.SqLen | ir-mouse.py:133 | the squared distance is zero exactly when the delta is zero |
| Numeric.RootAbove | ir-mouse.py:133-146 | for a non-negative root `r` of `sq`, `r > k` holds exactly when `sq > k*k`, so every distance gate can be decided on integers |
| Numeric.Trunc | ir-mouse.py:157-158 | `int(...)` truncates toward zero: the result lies between 0 and the value, less than 1 away from it |
| Motion.ActionableBySquare | ir-mouse.py:130-136 | motion is acted on exactly when the squared distance is over 9; a delta of exactly 3 is not enough |
| Motion.ScaleFactor | ir-mouse.py:141-148 | the scale factor is always one of 1.0, 1.2, 1.4, 1.7 |
| Motion.ScaleFactorBySquare | ir-mouse.py:141-148 | the factor chosen on the real distance equals the integer reference curve: squared distance over 400, 81, 36 gives 17/10, 14/10, 12/10, otherwise 1 |
| Motion.ScaleFactorMonotone | ir-mouse.py:141-148 | the factor never decreases as the distance grows |
| Motion.ScaleFactorBreakpoints | ir-mouse.py:141-148 | the breakpoints are strict: 20, 9 and 6 take the lower factor; 25, 10, 7 and 3.5 give 1.7, 1.4, 1.2 and 1.0 |
| PointerMap.ClampAxis | ir-mouse.py:161-168 | with a non-negative bound the result is in `[0, hi]`; an in-range value is unchanged; below 0 gives 0 and above the bound gives the bound |
| PointerMap.ClampIdempotent | ir-mouse.py:161-168 | clamping an already clamped value changes nothing, for every bound |
| PointerMap.MovePointer | ir-mouse.py:157-168 | on a screen with non-negative size the new pointer is on screen; a truncated target that is already in bounds is used unchanged |
| PointerMap.MovePointerDirection | ir-mouse.py:157-168 | from an on-screen pointer: a positive x delta never increases x, a negative one never decreases it, a positive y delta never decreases y, a negative one never increases it, and a zero delta keeps that coordinate |
| PointerMap.ClampBottomEdgeExample | ir-mouse.py:157-168 | pointer (500,500), screen 1920x1080, delta (0,30) at distance 30: the raw y is 2030 and the pointer ends at (500,1080) |
| Tracking.Step | ir-mouse.py:121-168 | the next state is this frame's location whether or not the pointer moves; a move happens exactly when both locations are detections and the squared distance is over 9; a move stays on a screen of non-negative size |
| Tracking.StepDirection | ir-mouse.py:130-158 | a move goes the way the inverted-x, upright-y mapping says, and an axis with zero delta does not move |
| Tracking.StepExamples | ir-mouse.py:127-168 | previous (100,100) and current (103,100) give no move; (10,10) to (10,14) moves; (100,100) to (100,130) with the pointer at (500,500) moves it to (500,1080) |
| Tracking.RunFrom | ir-mouse.py:86-193 | the loop ends with -1 exactly when a read fails before any Esc, with 0 exactly when Esc follows a frame before any failure, and keeps running exactly when every read succeeded without Esc; when the last read is a successfully read frame and no earlier read stopped the loop, the stored location is that frame's detection, whether or not the pointer moved (applied to every prefix of the reads, this is the state after each frame); it records no more moves than reads, and every pointer target it issues is on a screen of non-negative size |
| Tracking.RunMoves | ir-mouse.py:86-193 | the loop records exactly one decision per processed frame (all reads when none stops it, `k` when read `k` fails, `k + 1` when Esc follows frame `k`), and entry `i` is `Step`'s decision for frame `i` from the previous frame's location |
| Tracking.FirstFrameStays | ir-mouse.py:81-127 | the first frame never moves the pointer, because the stored location starts as the sentinel: its entry in the run is `Stay`, and the rest of the run continues from that frame's location |
| Tracking.TrackingLoop | ir-mouse.py:45-193 | the imperative loop ends the same way as the fold and records the same per-frame moves |
| Threshold.InRange | ir-mouse.py:105-107 | a mask pixel is set exactly when the channel value lies in the inclusive range, and clear otherwise |
| Threshold.BitwiseAnd | ir-mouse.py:110 | on binary masks, a composite pixel is set exactly when it is set in both masks |
| Threshold.Segment | ir-mouse.py:105-110 | a composite pixel is set exactly when its value and its hue both lie in their inclusive ranges |
| Threshold.SaturationIgnored | ir-mouse.py:106-110 | the composite is the same whatever the saturation channel and its bounds are |
| Threshold.WideningKeepsPixels | ir-mouse.py:105-107 | widening a range never clears a pixel that was set |
| Threshold.InvertedRangeEmpty | ir-mouse.py:105-107 | a range whose minimum is above its maximum selects no pixel |
| Threshold.ClearAbsorbs | ir-mouse.py:110 | ANDing an all-clear mask with any mask of its shape gives an all-clear mask |

## Left out

- Camera capture, resolution setup and `capture.read`: device I/O. Each read is an input, either `ReadFailed` or a processed `Frame`.
- Windows, trackbars, `imshow`, the tracking circle and `waitKey`: user interface. The six bounds and the Esc flag are inputs.
- `cv2.dilate`, `morphologyEx` and the 55x55 `GaussianBlur`: library image operations with floating-point kernels. The detected peak location is an input to `Step`.
- `cv2.minMaxLoc` and `cv2.cvtColor`: library calls whose tie-breaking and colour conversion are not visible. The model starts from the split HSV channels and from the peak location.
- `PyMouse` `position`, `move` and `screen_size`: pointer I/O. The current pointer and the screen size are parameters, and a move is returned as a value.
- `cv2.norm`: modelled by a square-root oracle. IEEE rounding of the norm and of `distance * scaleFactor` is not modelled; the arithmetic is exact real arithmetic.
- The loop runs until a failure or Esc. A finite sequence of reads that does neither ends in `Running`.
- `main`, `argparse` and the verbose printing: command-line plumbing that only prints.

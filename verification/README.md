# Hand gesture classifier — Dafny model

This project models the one piece of original logic in a live webcam demo that
recognises static hand gestures. An external hand-landmark estimator turns each
camera frame into 21 normalized 2-D keypoints per hand. `HandGestureDetector`
classifies those keypoints with a fixed rule set and colours them by finger;
the main loop then draws a box around each hand.

The model covers:

- **Landmarks** (`landmarks.dfy`): a keypoint as a pair of reals, the named
  keypoints the classifier reads, and the thumb/index touching test. The source
  tests `sqrt(dx² + dy²) < 0.05`. The model tests `dx² + dy² < 0.05²`, and
  `SquaredTestMatchesDistance` proves the two agree for the exact root.
- **Fingers** (`fingers.dfy`): the five 0/1 finger flags, thumb first. The thumb
  uses a horizontal test, which assumes a right hand seen in a mirrored image.
  The other four fingers compare the tip's y with the PIP joint's y. The module
  also holds the loop that builds the flags and the sum of the flags. A separate
  per-finger reading, `Extended`, with its count `RaisedCount`, gives the
  reference the flags are proved against.
- **Gestures** (`gestures.dfy`): the `Gesture` datatype
  (`Peace | HiFive | Fist | ThumbsUp | OK | OpenCount(n)`) and `Classify`, the
  first-match-wins rule chain.
- **GestureProperties** (`gesture_properties.dfy`): one lemma per rule, stated
  against `Extended`/`RaisedCount`. It also proves that only the ten keypoints
  read matter, and checks two worked examples.
- **Overlay** (`overlay.dfy`): the landmark-to-finger colour lookup and the
  bounding box. The box is the truncated, scaled extremes of the coordinates,
  grown by 20 pixels and clamped to the image.

Notes on the modelling:

- The classifier's precondition is `IsHand`: at least 21 landmarks. The code
  reads indices up to 20 and nothing else. The estimator always delivers exactly
  21, so longer lists are simply accepted.
- When the OK finger pattern is met but the tips are too far apart, the code has
  no `else`. Control falls through to the count label. `OkMissIsCount` states
  this behaviour.
- Python's `int()` on a float truncates toward zero. `Trunc` models that
  exactly on reals.
- The clamp `min(w, x_max + 20)` allows `x_max == w`, one column past the last
  pixel. The model keeps the bound `<= w` as written.

## Model

| member | source | states |
|---|---|---|
| `Landmarks.SquaredDistance` | index.py:27-29 | the squared thumb/index distance is never negative |
| `Landmarks.SquaredTestMatchesDistance` | index.py:27-29 | for the exact Euclidean distance d ≥ 0, `d < 0.05` holds exactly when the squared distance is below 0.05² |
| `Fingers.FingerFlags` | index.py:31-55 | the flag list (built with the tip/PIP test `IsFingerUp`) has 5 entries, each 0 or 1; the thumb flag is 1 iff landmark 4's x exceeds landmark 3's x; flag 1..4 is 1 iff the tip y (8, 12, 16, 20) is strictly below the PIP y (6, 10, 14, 18) |
| `Fingers.DetectFingersUp` | index.py:42-55 | appending the thumb flag and then one flag per finger in a loop over the tip/PIP tables yields exactly the flag list |
| `Fingers.Sum` | index.py:57 | the total of 0/1 flags is at most their number, and is 0 exactly when every flag is 0 |
| `Fingers.CountExtended` | index.py:42-57 | the number of extended fingers among a list of fingers is at most the list's length |
| `Fingers.RaisedCountByFinger` | index.py:42-57 | the raised-finger count is the sum, over thumb, index, middle, ring and pinky, of 1 for each extended finger |
| `Fingers.SumCountsExtended` | index.py:51-57 | summing flags that match the per-finger reading counts the extended fingers |
| `Fingers.FlagsMatchFingers` | index.py:44-57 | each flag is 1 exactly when its finger is extended, and the flag total equals the raised-finger count, at most 5 |
| `Gestures.Classify` | index.py:35-84 | a count label is only ever reported for 1 to 4 raised fingers, and its number is the raised-finger count |
| `GestureProperties.PeaceExactly` | index.py:61-62 | Peace iff exactly two fingers are up and they are index and middle |
| `GestureProperties.OtherPairIsCount` | index.py:61-84 | two raised fingers other than index and middle give `OpenCount(2)` |
| `GestureProperties.HiFiveExactly` | index.py:65-66 | HiFive iff all five fingers are up |
| `GestureProperties.FistExactly` | index.py:69-70 | Fist iff no finger is up |
| `GestureProperties.ThumbsUpExactly` | index.py:73-74 | ThumbsUp iff the thumb is the only finger up |
| `GestureProperties.LoneFingerIsCount` | index.py:73-84 | a single raised finger other than the thumb gives `OpenCount(1)` |
| `GestureProperties.OkExactly` | index.py:77-82 | OK iff three fingers are up, the thumb up, the index down, and the tips closer than 0.05 (the squared test `CloseForOk`) |
| `GestureProperties.OkByDistance` | index.py:77-82 | the same, with the Euclidean distance itself compared against 0.05 |
| `GestureProperties.OkMissIsCount` | index.py:77-84 | the OK finger pattern with the tips 0.05 or more apart gives `OpenCount(3)` |
| `GestureProperties.FlagsAgree` | index.py:44-55 | hands that agree on the x of landmarks 3 and 4 and the y of landmarks 6 to 20 that are compared get the same flags |
| `GestureProperties.ClassifyReadsOnlyTipsAndJoints` | index.py:38-84 | hands that agree on landmarks 3, 4, 6, 8, 10, 12, 14, 16, 18 and 20 are classified alike |
| `GestureProperties.UnreadLandmarkIsIrrelevant` | index.py:38-84 | replacing any other landmark leaves the classification unchanged |
| `GestureProperties.ThreeUpWithIndexIsCount` | index.py:61-84 | thumb, index and middle up gives `OpenCount(3)`, since the OK rule needs the index down |
| `GestureProperties.OkSignIsOk` | index.py:77-82 | thumb tip (0.50, 0.50) and index tip (0.52, 0.50), with thumb, middle and ring up, give OK |
| `Overlay.LandmarkColor` | index.py:137-141 | landmark 0 (and any index past 20) is white; landmark i in 1..20 takes the colour of finger (i-1)/4 |
| `Overlay.ExpandBox` | index.py:215-220 | after the margin, each corner is clamped on one side: `x_min >= 0`, `y_min >= 0`, `x_max <= w`, `y_max <= h`; a box that lay inside the image is still contained in the result |
| `Overlay.ExpandIsClippedGrowth` | index.py:215-220 | a pixel is in the expanded box iff it is in the box grown by 20 on every side and inside the image |
| `Overlay.Trunc` | index.py:212-213 | `int()` on a float truncates toward zero: the result is within 1 of its argument and no farther from 0 |
| `Overlay.ToPixelInImage` | index.py:212-213 | `int(v * size)` for a coordinate v in [0, 1] is a pixel index from 0 to size |
| `Overlay.ToPixelMonotone` | index.py:212-213 | scaling and truncating keeps the order of coordinates |
| `Overlay.MinOf` | index.py:212-213 | `min` of the coordinates is one of them and no larger than any |
| `Overlay.MaxOf` | index.py:212-213 | `max` of the coordinates is one of them and no smaller than any |
| `Overlay.Xs` | index.py:209 | the x-coordinate list has one entry per landmark, in landmark order |
| `Overlay.Ys` | index.py:210 | the y-coordinate list has one entry per landmark, in landmark order |
| `Overlay.PixelBetweenExtremes` | index.py:209-213 | every landmark's pixel lies between the pixels of the smallest and largest coordinate |
| `Overlay.TightBox` | index.py:209-213 | the box of scaled, truncated (`ToPixel`) extremes of `Xs`/`Ys` holds the pixel of every landmark, and each edge passes through some landmark's pixel, so it is the smallest such box |
| `Overlay.HandBox` | index.py:209-220 | the drawn box has `x_min, y_min >= 0` and `x_max <= w`, `y_max <= h`, and holds the pixel of every landmark that lies in the image; when every landmark is inside the frame it is also well formed (`x_min <= x_max`, `y_min <= y_max`), so it lies wholly inside the image |

## Left out

- Overlay.HandBox: does not promise a box inside the image when some landmark lies past the frame, because the code clamps each corner on one side only. For example, with every landmark at x = 2.0 and w = 100, `x_min` is 180, past the right edge.
- Landmarks.SquaredDistance: returns the squared distance rather than the distance (`math.sqrt` has no counterpart over reals here); `SquaredTestMatchesDistance` relates the two for the one comparison the code makes.
- Hand-landmark estimator and its configuration (index.py:16-25, 193): a foreign, pre-trained model; landmarks are an input list instead. The estimator's depth coordinate is never read and is not modelled.
- Camera loop, frame flip, colour conversion, window display, keypress exit and the "no hand" label (index.py:166-235): I/O orchestration.
- Drawing calls (`cv2.line`, `cv2.circle`, `cv2.rectangle`, `cv2.putText`), the skeleton connection lists and `add_info_panel` (index.py:86-164): rendering side effects in a library that is not part of this model; only the colour choice and the box arithmetic are modelled.
- Import-failure banner (index.py:1-13): environment plumbing.
- Label strings and emoji: the gestures are datatype constructors; `OpenCount(n)` stands for the "n fingers open" label.
- IEEE float rounding: coordinates, products and distances are exact reals.

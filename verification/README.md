# Separating Axis Theorem library of Dimension Surfer, in Dafny

Dimension Surfer is a 2D platformer whose collisions are decided by a small
Separating Axis Theorem (SAT) library, `sat.py`. This project models that
library and proves what it computes:

- `project` maps a polygon onto an axis and returns the interval
  `[min, max]` of the vertices' signed projection lengths. It builds the
  list of lengths in a loop, so it is modelled as the method `Sat.Project`.
  The method is proved equal to the specification function `Sat.Projection`.
- `checkOverlap` tests whether the obstacle's and the player's intervals
  overlap on one axis. An obstacle interval narrower than 1 counts as
  separating.
- `calculateProjectionVectors` runs the same test. On overlap it returns
  the two candidate push-out vectors along the axis and their magnitudes.
- `getNormal` returns the edge vector divided by its length and turned a
  quarter to the left.

Modelling choices:

- Python floats are Dafny `real`s. Vertices and vectors are `(real, real)`
  pairs (`Vec.Vec2`), and polygons are sequences of them.
- `math.sqrt` is not computed. `project` receives `normLen`, the Euclidean
  length of the axis (`Sat.IsNorm`: `normLen >= 0` and
  `normLen * normLen == n·n`). From it, `|dp| * normLen` is exactly the
  square root the source takes at line 17. `getNormal` receives the edge
  length as a parameter.
- The exceptions the source raises become `Err` results, not
  preconditions. `ZeroDivision` covers `sign_p / abs(sign_p)` when
  `sign_p` is 0, and `edge / length` when the length is 0. `EmptyPolygon`
  covers `min([])`.
- Python's `min` and `max` builtins are the functions `Extrema.SeqMin` and
  `Extrema.SeqMax`.

Behaviour of sat.py that the model keeps as written:

- `sign_p / abs(sign_p)` at sat.py:21 divides by zero for any vertex
  orthogonal to the axis. That includes a vertex at the origin. The model's
  projection is `Err(ZeroDivision)` there (`Sat.ProjectionsSpec`,
  `Sat.RectangleProjectionX`).
- The width guard at sat.py:33 tests only the obstacle's interval, so the
  overlap test is not symmetric in its two polygons. The two orders give
  different answers exactly when the intervals meet and just one of them is
  narrower than 1. In particular they agree when both are at least 1 wide
  (`Sat.OverlapSymmetric`).
- The length expression at sat.py:67 is not the squared edge length (see
  Findings).

## Model

| member | source | states |
|---|---|---|
| `Sat.Recomposition` | sat.py:13-21 | the projected vector `dp·n` has length `abs(dp)·normLen`; `sign_p` is 0 exactly when `dp` is 0; giving the length the sign of `sign_p` yields `dp·normLen` |
| `Sat.SignedLength` | sat.py:13-21 | one vertex's appended value fails with a division by zero exactly when the vertex is orthogonal to the axis; otherwise it is the dot product times the axis length, so the dot product for a unit axis |
| `Sat.ProjectionsSpec` | sat.py:8-23 | the `projected` list has one entry per vertex, in order, each `v·n·normLen`; building it fails, with a division by zero, exactly when some vertex has `v·n == 0` |
| `Extrema.SeqMinIsMinimum` | sat.py:25 | `min` returns an element of the list that is no larger than any element |
| `Extrema.SeqMaxIsMaximum` | sat.py:25 | `max` returns an element of the list that is no smaller than any element |
| `Sat.ProjectionBounds` | sat.py:6-25 | `project` succeeds exactly on a non-empty polygon with no vertex orthogonal to the axis; then `lo` and `hi` are the least and greatest per-vertex values, both attained, and `lo <= hi`; an empty polygon fails with `EmptyPolygon`, anything else with `ZeroDivision` |
| `Sat.Project` | sat.py:6-25 | the loop appending one signed length per vertex, followed by min/max, returns exactly `Projection` (the same interval, or the same error at the same condition) |
| `Sat.RectangleProjectionX` | sat.py:11-25 | an axis-aligned rectangle projected onto `(1, 0)` gives `[left, right]`, and fails with a division by zero when an edge lies on `x = 0` |
| `Sat.RectangleProjectionY` | sat.py:11-25 | an axis-aligned rectangle projected onto `(0, 1)` gives `[top, bottom]`, and fails with a division by zero when an edge lies on `y = 0` |
| `Sat.ProjectionTranslate` | sat.py:11-25 | when the moved polygon's projection also succeeds, moving a polygon by `d` moves both ends of its projection by `d·n·normLen` |
| `Sat.CheckOverlap` | sat.py:28-39 | fails exactly when either projection fails, with the obstacle's error when its projection fails and the player's error otherwise; otherwise true exactly when the two intervals share a point and the obstacle's interval is at least 1 wide |
| `Sat.MeetIffSharedPoint` | sat.py:33 | the interval condition of the test holds exactly when some point lies in both intervals |
| `Sat.OverlapSymmetric` | sat.py:33 | swapping obstacle and player changes the result exactly when the intervals meet and just one of them is narrower than 1; so the result is kept when both are at least 1 wide, and a player interval narrower than 1 makes the swapped test false |
| `Sat.CalculateProjectionVectors` | sat.py:42-60 | fails exactly when `CheckOverlap` fails; returns no overlap exactly when `CheckOverlap` is false; on overlap both magnitudes are non-negative, `player.hi - mag1 == obstacle.lo` and `player.lo + mag2 == obstacle.hi`, the vectors are the axis scaled by `-mag1` and `mag2`, and the magnitudes add up to the sum of the two widths |
| `Sat.PushTouches` | sat.py:54-58 | along a unit axis, and when the moved player's projection succeeds (otherwise line 21 divides by zero), moving the player by `vector1` puts its upper end on the obstacle's lower end, and by `vector2` its lower end on the obstacle's upper end; the moved player still counts as overlapping |
| `Sat.GetNormal` | sat.py:63-73 | fails exactly when the length is 0; otherwise the normal is perpendicular to the edge whatever the length, and lies to the left of it (cross product `e·e / length`) |
| `Sat.NormalIsUnit` | sat.py:67-71 | with the Euclidean edge length, the normal has length 1 |
| `NormalLength.WrittenLengthCounterexamples` | sat.py:67 | the expression as written gives 7 instead of 25 for the edge (3, 4), 0 for the non-degenerate edge (1, 1) and -1 for the edge (-1, 0) |
| `NormalLength.WrittenNormalNotUnit` | sat.py:67-71 | normalising the edge (3, 4) by the square root of the written value gives a normal of squared length 25/7, not 1 |

## Findings

| source | as written | input that shows it | evidently intended | confidence | as-written member | corrected member |
|---|---|---|---|---|---|---|
| sat.py:67 | `edge[0]^2 + edge[1]^2` parses as `edge[0] ^ (2 + edge[1]) ^ 2`, a bitwise exclusive or | edge (3, 4) gives 7, not 25, so the normal is not unit; edge (1, 1) gives 0, so line 69 divides by zero; float coordinates raise `TypeError` | `edge[0]**2 + edge[1]**2`, the squared edge length, so the normal is a unit vector | high; not executed | `NormalLength.WrittenLengthCounterexamples` | `Sat.NormalIsUnit` |

## Left out

- main.py: a pygame window, event loop and frame clock. It holds no game logic.
- Floating-point rounding: all arithmetic is over exact reals.
- `math.sqrt`: the axis length and the edge length are parameters. They are not computed.
- `Sat.GetNormal`: takes the edge length as a parameter instead of evaluating line 67. Its contract holds for every positive length. `Sat.NormalIsUnit` covers the Euclidean length, and `NormalLength` covers the value as written.
- `Sat.Project`: receives the axis length `normLen` in place of the square root taken at line 17.
- sat.py calls `math.sqrt` at lines 17 and 67 without importing `math`, so as written both calls raise `NameError`. The model assumes `math` is imported.
- Axis enumeration, the solid and lethal resolvers, player physics, the depth smoother and collectibles are not part of this model. The files they live in are not part of the source modelled here.

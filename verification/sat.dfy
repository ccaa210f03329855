/** The Separating Axis Theorem library: projection of a polygon onto an
    axis, the per-axis overlap test, the per-axis push-out vectors and the
    normal of a polygon edge.

    Python's floats are modelled as reals. `math.sqrt` is not computed: the
    callers supply `normLen`, the length of the axis vector (`IsNorm`), and
    `GetNormal` receives the edge length. The exceptions the source can
    raise become `Err` results. */
module Sat {
  import opened Vec
  import opened Extrema

  datatype Error =
    | ZeroDivision   // `ZeroDivisionError`: a division by a zero value
    | EmptyPolygon   // `ValueError`: `min` of an empty list

  datatype Result<T> = Ok(value: T) | Err(error: Error)

  /** A one-dimensional projection `[lo, hi]`. */
  datatype Interval = Interval(lo: real, hi: real)

  /** What `calculateProjectionVectors` returns: `False`, or the magnitudes
      and vectors of the two candidate push-outs. */
  datatype Push =
    | NoOverlap
    | Push(mag1: real, vec1: Vec2, mag2: real, vec2: Vec2)

  /** `normLen` is the Euclidean length of `n`, the value `math.sqrt`
      would give. */
  predicate IsNorm(normLen: real, n: Vec2) {
    normLen >= 0.0 && normLen * normLen == Dot(n, n)
  }

  function Width(iv: Interval): (r: real) {
    iv.hi - iv.lo
  }

  predicate Contains(iv: Interval, x: real) {
    iv.lo <= x <= iv.hi
  }

  /** Reference notion of two intervals sharing a point: the larger lower
      end does not exceed the smaller upper end. */
  predicate Meet(a: Interval, b: Interval) {
    Max(a.lo, b.lo) <= Min(a.hi, b.hi)
  }

  // ---------------------------------------------------------------------
  // project
  // ---------------------------------------------------------------------

  lemma SquareNonNegative(x: real)
    ensures x * x >= 0.0
    ensures x != 0.0 ==> x * x > 0.0
  {
  }

  /** The recomposition of one vertex: the projected vector `dp * n` has
      length `|dp| * normLen`, its dot product with the axis, `sign_p`, is
      `dp` times the squared axis length, and giving the length the sign of
      `sign_p` yields `dp * normLen`. */
  lemma Recomposition(v: Vec2, n: Vec2, normLen: real)
    requires IsNorm(normLen, n)
    ensures var dp := Dot(v, n);
      var signP := Dot(Scale(n, dp), n);
      && (Abs(dp) * normLen) * (Abs(dp) * normLen) == Dot(Scale(n, dp), Scale(n, dp))
      && (signP == 0.0 <==> dp == 0.0)
      && (signP != 0.0 ==> (Abs(dp) * normLen) * (signP / Abs(signP)) == dp * normLen)
  {
    var dp := Dot(v, n);
    var s := Dot(n, n);
    var signP := Dot(Scale(n, dp), n);
    DotScale(n, dp);
    assert signP == dp * s;
    assert Dot(Scale(n, dp), Scale(n, dp)) == (dp * dp) * s;
    assert (Abs(dp) * normLen) * (Abs(dp) * normLen) == (Abs(dp) * Abs(dp)) * (normLen * normLen);
    assert Abs(dp) * Abs(dp) == dp * dp;
    SquareNonNegative(n.0);
    SquareNonNegative(n.1);
    if dp != 0.0 {
      assert n.0 != 0.0 || n.1 != 0.0;
      assert s > 0.0;
    }
    if dp > 0.0 {
      assert signP > 0.0;
      assert signP / Abs(signP) == 1.0;
    } else if dp < 0.0 {
      assert signP < 0.0;
      assert signP / Abs(signP) == -1.0;
    }
  }

  /** The signed length the source appends for one vertex `v`: it projects
      the position vector onto `n`, takes the projection's length and gives
      it the sign of `sign_p`. The division by `abs(sign_p)` fails exactly
      when the vertex is orthogonal to the axis; otherwise the value is the
      dot product scaled by the axis length. */
  function SignedLength(v: Vec2, n: Vec2, normLen: real): (r: Result<real>)
    requires IsNorm(normLen, n)
    ensures r.Err? <==> Dot(v, n) == 0.0
    ensures r.Err? ==> r.error == ZeroDivision
    ensures r.Ok? ==> r.value == Dot(v, n) * normLen
  {
    var dp := Dot(v, n);
    var projectedV := Scale(n, dp);
    var projectedL := Abs(dp) * normLen;
    var signP := Dot(projectedV, n);
    Recomposition(v, n, normLen);
    if signP == 0.0 then Err(ZeroDivision)
    else Ok(projectedL * (signP / Abs(signP)))
  }

  /** The list `projected`, built vertex by vertex; the first vertex whose
      signed length fails stops the whole projection. */
  function Projections(poly: seq<Vec2>, n: Vec2, normLen: real): (r: Result<seq<real>>)
    requires IsNorm(normLen, n)
  {
    if |poly| == 0 then Ok([])
    else
      match Projections(poly[..|poly| - 1], n, normLen)
      case Err(e) => Err(e)
      case Ok(s) =>
        match SignedLength(poly[|poly| - 1], n, normLen)
        case Err(e) => Err(e)
        case Ok(x) => Ok(s + [x])
  }

  /** The value `project` returns: the bounds of the projected list. */
  function Projection(poly: seq<Vec2>, n: Vec2, normLen: real): (r: Result<Interval>)
    requires IsNorm(normLen, n)
  {
    match Projections(poly, n, normLen)
    case Err(e) => Err(e)
    case Ok(s) =>
      if |s| == 0 then Err(EmptyPolygon) else Ok(Interval(SeqMin(s), SeqMax(s)))
  }

  /** Building the projected list fails, always with a division by zero,
      exactly when some vertex is orthogonal to the axis. */
  lemma {:induction false} ProjectionsFailure(poly: seq<Vec2>, n: Vec2, normLen: real)
    requires IsNorm(normLen, n)
    ensures Projections(poly, n, normLen).Ok?
        <==> forall i :: 0 <= i < |poly| ==> Dot(poly[i], n) != 0.0
    ensures Projections(poly, n, normLen).Err? ==> Projections(poly, n, normLen).error == ZeroDivision
  {
    if |poly| > 0 {
      var init := poly[..|poly| - 1];
      ProjectionsFailure(init, n, normLen);
      var rest := Projections(init, n, normLen);
      var here := SignedLength(poly[|poly| - 1], n, normLen);
      if rest.Err? {
        assert Projections(poly, n, normLen) == rest;
        var k :| 0 <= k < |init| && Dot(init[k], n) == 0.0;
        assert poly[k] == init[k];
      } else if here.Err? {
        assert Projections(poly, n, normLen) == Err(here.error);
      } else {
        assert Projections(poly, n, normLen) == Ok(rest.value + [here.value]);
        forall i | 0 <= i < |poly|
          ensures Dot(poly[i], n) != 0.0
        {
          if i < |init| {
            assert poly[i] == init[i];
          }
        }
      }
    }
  }

  /** The projected list holds one entry per vertex, each the dot product
      scaled by the axis length, when it is built at all. */
  lemma {:induction false} ProjectionsValues(poly: seq<Vec2>, n: Vec2, normLen: real)
    requires IsNorm(normLen, n)
    ensures Projections(poly, n, normLen).Ok? ==>
      var s := Projections(poly, n, normLen).value;
      |s| == |poly| && forall i :: 0 <= i < |poly| ==> s[i] == Dot(poly[i], n) * normLen
  {
    if |poly| > 0 && Projections(poly, n, normLen).Ok? {
      var init := poly[..|poly| - 1];
      ProjectionsValues(init, n, normLen);
      var s := Projections(init, n, normLen).value;
      var x := SignedLength(poly[|poly| - 1], n, normLen).value;
      assert Projections(poly, n, normLen) == Ok(s + [x]);
      assert |s| == |init|;
      forall i | 0 <= i < |poly|
        ensures (s + [x])[i] == Dot(poly[i], n) * normLen
      {
        if i < |init| {
          assert poly[i] == init[i];
          assert Dot(poly[i], n) == Dot(init[i], n);
          assert (s + [x])[i] == s[i];
        } else {
          assert poly[i] == poly[|poly| - 1];
          assert (s + [x])[i] == x;
        }
      }
    }
  }

  /** The projected list holds one entry per vertex, each the dot product
      scaled by the axis length (so the dot product itself for a unit axis);
      it fails, with a division by zero, exactly when some vertex is
      orthogonal to the axis. */
  lemma {:induction false} ProjectionsSpec(poly: seq<Vec2>, n: Vec2, normLen: real)
    requires IsNorm(normLen, n)
    ensures Projections(poly, n, normLen).Ok?
        <==> forall i :: 0 <= i < |poly| ==> Dot(poly[i], n) != 0.0
    ensures Projections(poly, n, normLen).Err? ==> Projections(poly, n, normLen).error == ZeroDivision
    ensures Projections(poly, n, normLen).Ok? ==>
      var s := Projections(poly, n, normLen).value;
      |s| == |poly| && forall i :: 0 <= i < |poly| ==> s[i] == Dot(poly[i], n) * normLen
  {
    ProjectionsFailure(poly, n, normLen);
    ProjectionsValues(poly, n, normLen);
  }

  /** `project` succeeds exactly on a non-empty polygon none of whose
      vertices is orthogonal to the axis; it then returns the least and the
      greatest scaled dot product over the vertices, so `lo <= hi`. */
  lemma ProjectionBounds(poly: seq<Vec2>, n: Vec2, normLen: real)
    requires IsNorm(normLen, n)
    ensures Projection(poly, n, normLen).Ok?
        <==> |poly| > 0 && forall i :: 0 <= i < |poly| ==> Dot(poly[i], n) != 0.0
    ensures |poly| == 0 ==> Projection(poly, n, normLen) == Err(EmptyPolygon)
    ensures Projection(poly, n, normLen).Err? && |poly| > 0 ==>
      Projection(poly, n, normLen).error == ZeroDivision
    ensures Projection(poly, n, normLen).Ok? ==>
      var iv := Projection(poly, n, normLen).value;
      && iv.lo <= iv.hi
      && (forall i :: 0 <= i < |poly| ==> iv.lo <= Dot(poly[i], n) * normLen <= iv.hi)
      && (exists i :: 0 <= i < |poly| && iv.lo == Dot(poly[i], n) * normLen)
      && (exists j :: 0 <= j < |poly| && iv.hi == Dot(poly[j], n) * normLen)
  {
    ProjectionsSpec(poly, n, normLen);
    if Projection(poly, n, normLen).Ok? {
      var s := Projections(poly, n, normLen).value;
      SeqMinIsMinimum(s);
      SeqMaxIsMaximum(s);
      var i :| 0 <= i < |s| && s[i] == SeqMin(s);
      var j :| 0 <= j < |s| && s[j] == SeqMax(s);
      assert s[0] <= SeqMax(s);
    }
  }

  /** `project`, as the source runs it: a loop appends one signed length
      per vertex, then the list's minimum and maximum are returned. */
  method Project(polygon: seq<Vec2>, normal: Vec2, normLen: real) returns (r: Result<Interval>)
    requires IsNorm(normLen, normal)
    ensures r == Projection(polygon, normal, normLen)
  {
    var projected: seq<real> := [];
    for i := 0 to |polygon|
      invariant Projections(polygon[..i], normal, normLen) == Ok(projected)
    {
      assert polygon[..i + 1][..i] == polygon[..i];
      var l := SignedLength(polygon[i], normal, normLen);
      if l.Err? {
        ProjectionsSpec(polygon, normal, normLen);
        return Err(ZeroDivision);
      }
      projected := projected + [l.value];
    }
    assert polygon[..|polygon|] == polygon;
    if |projected| == 0 {
      return Err(EmptyPolygon);
    }
    r := Ok(Interval(SeqMin(projected), SeqMax(projected)));
  }

  /** Projecting an axis-aligned rectangle onto the x axis gives its left
      and right edges, unless an edge lies on the y axis, where the
      division by `abs(sign_p)` fails. */
  lemma RectangleProjectionX(l: real, t: real, r: real, b: real)
    requires l <= r
    ensures var rect := [(l, t), (r, t), (r, b), (l, b)];
      Projection(rect, (1.0, 0.0), 1.0)
        == if l == 0.0 || r == 0.0 then Err(ZeroDivision) else Ok(Interval(l, r))
  {
    var rect := [(l, t), (r, t), (r, b), (l, b)];
    var n := (1.0, 0.0);
    ProjectionBounds(rect, n, 1.0);
    assert Dot(rect[0], n) == l && Dot(rect[1], n) == r && Dot(rect[2], n) == r && Dot(rect[3], n) == l;
    if l == 0.0 || r == 0.0 {
      assert Projection(rect, n, 1.0).Err?;
    } else {
      var iv := Projection(rect, n, 1.0).value;
      assert iv.lo <= l && r <= iv.hi;
      var i :| 0 <= i < 4 && iv.lo == Dot(rect[i], n) * 1.0;
      var j :| 0 <= j < 4 && iv.hi == Dot(rect[j], n) * 1.0;
      assert iv == Interval(l, r);
    }
  }

  /** Projecting an axis-aligned rectangle onto the y axis gives its top
      and bottom edges, unless an edge lies on the x axis. */
  lemma RectangleProjectionY(l: real, t: real, r: real, b: real)
    requires t <= b
    ensures var rect := [(l, t), (r, t), (r, b), (l, b)];
      Projection(rect, (0.0, 1.0), 1.0)
        == if t == 0.0 || b == 0.0 then Err(ZeroDivision) else Ok(Interval(t, b))
  {
    var rect := [(l, t), (r, t), (r, b), (l, b)];
    var n := (0.0, 1.0);
    ProjectionBounds(rect, n, 1.0);
    assert Dot(rect[0], n) == t && Dot(rect[1], n) == t && Dot(rect[2], n) == b && Dot(rect[3], n) == b;
    if t == 0.0 || b == 0.0 {
      assert Projection(rect, n, 1.0).Err?;
    } else {
      var iv := Projection(rect, n, 1.0).value;
      assert iv.lo <= t && b <= iv.hi;
      var i :| 0 <= i < 4 && iv.lo == Dot(rect[i], n) * 1.0;
      var j :| 0 <= j < 4 && iv.hi == Dot(rect[j], n) * 1.0;
      assert iv == Interval(t, b);
    }
  }

  lemma Distribute(x: real, y: real, k: real)
    ensures (x + y) * k == x * k + y * k
  {
  }

  /** One vertex's scaled dot product after moving it by `d`. */
  lemma TranslatedEntry(u: Vec2, d: Vec2, n: Vec2, normLen: real)
    ensures Dot(Add(u, d), n) * normLen == Dot(u, n) * normLen + Dot(d, n) * normLen
  {
    DotAdd(u, d, n);
    Distribute(Dot(u, n), Dot(d, n), normLen);
  }

  /** Moving a polygon by `d` adds the same constant to every entry of its
      `projected` list, whenever both lists exist. */
  lemma TranslatedProjections(poly: seq<Vec2>, d: Vec2, n: Vec2, normLen: real)
    requires IsNorm(normLen, n)
    requires Projections(poly, n, normLen).Ok?
    requires Projections(Translate(poly, d), n, normLen).Ok?
    ensures var s := Projections(poly, n, normLen).value;
      var t := Projections(Translate(poly, d), n, normLen).value;
      |s| == |t| == |poly| && forall i :: 0 <= i < |s| ==> t[i] == s[i] + Dot(d, n) * normLen
  {
    var moved := Translate(poly, d);
    ProjectionsSpec(poly, n, normLen);
    ProjectionsSpec(moved, n, normLen);
    var s := Projections(poly, n, normLen).value;
    var t := Projections(moved, n, normLen).value;
    forall i | 0 <= i < |s|
      ensures t[i] == s[i] + Dot(d, n) * normLen
    {
      assert moved[i] == Add(poly[i], d);
      TranslatedEntry(poly[i], d, n, normLen);
    }
  }

  /** Moving a polygon by `d` moves its projection by the projected length
      of `d`, whenever both projections exist. */
  lemma ProjectionTranslate(poly: seq<Vec2>, d: Vec2, n: Vec2, normLen: real)
    requires IsNorm(normLen, n)
    requires Projection(poly, n, normLen).Ok?
    requires Projection(Translate(poly, d), n, normLen).Ok?
    ensures var iv := Projection(poly, n, normLen).value;
      var c := Dot(d, n) * normLen;
      Projection(Translate(poly, d), n, normLen).value == Interval(iv.lo + c, iv.hi + c)
  {
    var moved := Translate(poly, d);
    TranslatedProjections(poly, d, n, normLen);
    var s := Projections(poly, n, normLen).value;
    var t := Projections(moved, n, normLen).value;
    SeqExtremaShift(s, t, Dot(d, n) * normLen);
  }

  // ---------------------------------------------------------------------
  // checkOverlap
  // ---------------------------------------------------------------------

  /** `checkOverlap`: both polygons are projected (the obstacle first, so
      its failure is the one reported); the axis separates them when the
      intervals do not meet or when the obstacle's interval is narrower
      than 1. */
  function CheckOverlap(obstacle: seq<Vec2>, player: seq<Vec2>, n: Vec2, normLen: real): (r: Result<bool>)
    requires IsNorm(normLen, n)
    ensures r.Err? <==> Projection(obstacle, n, normLen).Err? || Projection(player, n, normLen).Err?
    ensures r.Err? && Projection(obstacle, n, normLen).Err? ==> r.error == Projection(obstacle, n, normLen).error
    ensures r.Err? && Projection(obstacle, n, normLen).Ok? ==> r.error == Projection(player, n, normLen).error
    ensures r.Ok? ==>
      var o := Projection(obstacle, n, normLen).value;
      var p := Projection(player, n, normLen).value;
      r.value <==> Meet(o, p) && Width(o) >= 1.0
  {
    match Projection(obstacle, n, normLen)
    case Err(e) => Err(e)
    case Ok(o) =>
      match Projection(player, n, normLen)
      case Err(e) => Err(e)
      case Ok(p) =>
        ProjectionBounds(obstacle, n, normLen);
        ProjectionBounds(player, n, normLen);
        if o.hi < p.lo || o.lo > p.hi || o.hi - o.lo < 1.0 then Ok(false) else Ok(true)
  }

  /** Two intervals meet exactly when they share a point: the larger lower
      end lies in both, and otherwise no point does. */
  lemma MeetIffSharedPoint(a: Interval, b: Interval)
    ensures Meet(a, b) ==> Contains(a, Max(a.lo, b.lo)) && Contains(b, Max(a.lo, b.lo))
    ensures !Meet(a, b) ==> forall x :: !(Contains(a, x) && Contains(b, x))
  {
  }

  /** The overlap test is symmetric in the two polygons when both
      projections are at least 1 wide. Because the width guard applies
      only to the obstacle, the two orders differ exactly when the
      intervals meet and just one of them is narrower than 1. */
  lemma OverlapSymmetric(a: seq<Vec2>, b: seq<Vec2>, n: Vec2, normLen: real)
    requires IsNorm(normLen, n)
    requires CheckOverlap(a, b, n, normLen).Ok?
    ensures CheckOverlap(b, a, n, normLen).Ok?
    ensures Width(Projection(a, n, normLen).value) >= 1.0 && Width(Projection(b, n, normLen).value) >= 1.0
      ==> CheckOverlap(a, b, n, normLen) == CheckOverlap(b, a, n, normLen)
    ensures Width(Projection(b, n, normLen).value) < 1.0 ==> CheckOverlap(b, a, n, normLen) == Ok(false)
    ensures var o := Projection(a, n, normLen).value;
      var p := Projection(b, n, normLen).value;
      (CheckOverlap(a, b, n, normLen) != CheckOverlap(b, a, n, normLen))
        <==> (Meet(o, p) && ((Width(o) < 1.0) != (Width(p) < 1.0)))
  {
    var o := Projection(a, n, normLen).value;
    var p := Projection(b, n, normLen).value;
    assert Meet(o, p) == Meet(p, o);
  }

  // ---------------------------------------------------------------------
  // calculateProjectionVectors
  // ---------------------------------------------------------------------

  /** `calculateProjectionVectors`: the same test as `CheckOverlap`; on
      overlap, `value1 = obstacle.lo - player.hi <= 0` and
      `value2 = obstacle.hi - player.lo >= 0` are the signed distances that
      move the player's interval to either end of the obstacle's. */
  function CalculateProjectionVectors(obstacle: seq<Vec2>, player: seq<Vec2>, n: Vec2, normLen: real): (r: Result<Push>)
    requires IsNorm(normLen, n)
    ensures r.Err? <==> CheckOverlap(obstacle, player, n, normLen).Err?
    ensures r.Err? ==> r.error == CheckOverlap(obstacle, player, n, normLen).error
    ensures r.Ok? ==> (r.value.NoOverlap? <==> !CheckOverlap(obstacle, player, n, normLen).value)
    ensures r.Ok? && r.value.Push? ==>
      var o := Projection(obstacle, n, normLen).value;
      var p := Projection(player, n, normLen).value;
      && r.value.mag1 >= 0.0 && r.value.mag2 >= 0.0
      && p.hi - r.value.mag1 == o.lo
      && p.lo + r.value.mag2 == o.hi
      && r.value.vec1 == Scale(n, -r.value.mag1)
      && r.value.vec2 == Scale(n, r.value.mag2)
      && r.value.mag1 + r.value.mag2 == Width(o) + Width(p)
  {
    match Projection(obstacle, n, normLen)
    case Err(e) => Err(e)
    case Ok(o) =>
      match Projection(player, n, normLen)
      case Err(e) => Err(e)
      case Ok(p) =>
        ProjectionBounds(obstacle, n, normLen);
        ProjectionBounds(player, n, normLen);
        if o.hi < p.lo || o.lo > p.hi || o.hi - o.lo < 1.0 then Ok(NoOverlap)
        else
          var value1 := o.lo - p.hi;
          var value2 := o.hi - p.lo;
          Ok(Push(Abs(value1), Scale(n, value1), Abs(value2), Scale(n, value2)))
  }

  /** Along a unit axis, moving a polygon by `k` times the axis moves its
      projection by `k`. */
  lemma ShiftAlongUnitAxis(poly: seq<Vec2>, n: Vec2, k: real)
    requires IsNorm(1.0, n)
    requires Projection(poly, n, 1.0).Ok?
    requires Projection(Translate(poly, Scale(n, k)), n, 1.0).Ok?
    ensures var iv := Projection(poly, n, 1.0).value;
      Projection(Translate(poly, Scale(n, k)), n, 1.0).value == Interval(iv.lo + k, iv.hi + k)
  {
    DotScale(n, k);
    ProjectionTranslate(poly, Scale(n, k), n, 1.0);
  }

  /** Along a unit axis, moving the player by either push-out vector leaves
      its projection just touching the obstacle's (the upper end on the
      lower end, or the lower end on the upper end), and touching still
      counts as overlap. */
  lemma PushTouches(obstacle: seq<Vec2>, player: seq<Vec2>, n: Vec2)
    requires IsNorm(1.0, n)
    requires CalculateProjectionVectors(obstacle, player, n, 1.0).Ok?
    requires CalculateProjectionVectors(obstacle, player, n, 1.0).value.Push?
    ensures var push := CalculateProjectionVectors(obstacle, player, n, 1.0).value;
      var o := Projection(obstacle, n, 1.0).value;
      var moved := Translate(player, push.vec1);
      Projection(moved, n, 1.0).Ok? ==>
        Projection(moved, n, 1.0).value.hi == o.lo && CheckOverlap(obstacle, moved, n, 1.0) == Ok(true)
    ensures var push := CalculateProjectionVectors(obstacle, player, n, 1.0).value;
      var o := Projection(obstacle, n, 1.0).value;
      var moved := Translate(player, push.vec2);
      Projection(moved, n, 1.0).Ok? ==>
        Projection(moved, n, 1.0).value.lo == o.hi && CheckOverlap(obstacle, moved, n, 1.0) == Ok(true)
  {
    var push := CalculateProjectionVectors(obstacle, player, n, 1.0).value;
    var o := Projection(obstacle, n, 1.0).value;
    var p := Projection(player, n, 1.0).value;
    ProjectionBounds(obstacle, n, 1.0);
    assert Width(o) >= 1.0;
    var moved1 := Translate(player, push.vec1);
    if Projection(moved1, n, 1.0).Ok? {
      ShiftAlongUnitAxis(player, n, -push.mag1);
      var m := Projection(moved1, n, 1.0).value;
      assert m == Interval(p.lo - push.mag1, o.lo);
      ProjectionBounds(moved1, n, 1.0);
      assert Meet(o, m);
    }
    var moved2 := Translate(player, push.vec2);
    if Projection(moved2, n, 1.0).Ok? {
      ShiftAlongUnitAxis(player, n, push.mag2);
      var m := Projection(moved2, n, 1.0).value;
      assert m == Interval(o.hi, p.hi + push.mag2);
      ProjectionBounds(moved2, n, 1.0);
      assert Meet(o, m);
    }
  }

  // ---------------------------------------------------------------------
  // getNormal
  // ---------------------------------------------------------------------

  /** `getNormal`: the edge from `a` to `b`, divided by `length`, turned a
      quarter to the left. The division fails when `length` is zero;
      otherwise the result is perpendicular to the edge whatever `length`
      is, and points to the left of it. */
  function GetNormal(a: Vec2, b: Vec2, length: real): (r: Result<Vec2>)
    requires length >= 0.0
    ensures r.Err? <==> length == 0.0
    ensures r.Err? ==> r.error == ZeroDivision
    ensures r.Ok? ==> Dot(r.value, Sub(b, a)) == 0.0
    ensures r.Ok? ==> Sub(b, a).0 * r.value.1 - Sub(b, a).1 * r.value.0 == Dot(Sub(b, a), Sub(b, a)) / length
  {
    var edge := Sub(b, a);
    if length == 0.0 then Err(ZeroDivision)
    else
      var unit := (edge.0 / length, edge.1 / length);
      Ok((-unit.1, unit.0))
  }

  /** With the true Euclidean edge length, the normal has length 1. */
  lemma NormalIsUnit(a: Vec2, b: Vec2, length: real)
    requires length > 0.0
    requires length * length == Dot(Sub(b, a), Sub(b, a))
    ensures GetNormal(a, b, length).Ok?
    ensures Dot(GetNormal(a, b, length).value, GetNormal(a, b, length).value) == 1.0
  {
    var e := Sub(b, a);
    var nrm := GetNormal(a, b, length).value;
    var q0, q1 := e.0 / length, e.1 / length;
    assert nrm == (-q1, q0);
    assert q0 * length == e.0 && q1 * length == e.1;
    calc {
      Dot(nrm, nrm) * (length * length);
      (q1 * length) * (q1 * length) + (q0 * length) * (q0 * length);
      Dot(e, e);
      1.0 * (length * length);
    }
  }
}

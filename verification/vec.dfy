/** Plane vectors over the reals, as the collision library treats its
    two-element coordinate lists. */
module Vec {

  type Vec2 = (real, real)

  function Dot(u: Vec2, v: Vec2): (r: real) {
    u.0 * v.0 + u.1 * v.1
  }

  /** The vector `v` multiplied by the scalar `k`. */
  function Scale(v: Vec2, k: real): (r: Vec2) {
    (v.0 * k, v.1 * k)
  }

  function Add(u: Vec2, v: Vec2): (r: Vec2) {
    (u.0 + v.0, u.1 + v.1)
  }

  /** The vector from `a` to `b`. */
  function Sub(b: Vec2, a: Vec2): (r: Vec2) {
    (b.0 - a.0, b.1 - a.1)
  }

  function Abs(x: real): (r: real) {
    if x < 0.0 then -x else x
  }

  function Min(x: real, y: real): (r: real) {
    if x <= y then x else y
  }

  function Max(x: real, y: real): (r: real) {
    if x >= y then x else y
  }

  /** Every vertex of `poly` moved by `d`. */
  function Translate(poly: seq<Vec2>, d: Vec2): (r: seq<Vec2>)
    ensures |r| == |poly|
    ensures forall i :: 0 <= i < |poly| ==> r[i] == Add(poly[i], d)
  {
    seq(|poly|, i requires 0 <= i < |poly| => Add(poly[i], d))
  }

  lemma DotAdd(u: Vec2, d: Vec2, n: Vec2)
    ensures Dot(Add(u, d), n) == Dot(u, n) + Dot(d, n)
  {
  }

  lemma DotScale(n: Vec2, k: real)
    ensures Dot(Scale(n, k), n) == k * Dot(n, n)
  {
  }
}

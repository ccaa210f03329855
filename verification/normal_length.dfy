/** The edge length as `getNormal` writes it. In Python `+` binds tighter
    than `^`, and `^` is bitwise exclusive or, so `edge[0]^2 + edge[1]^2`
    is `edge[0] ^ (2 + edge[1]) ^ 2`: a `TypeError` on float coordinates
    and, on integer coordinates, a value unrelated to the squared length.
    `Sat.GetNormal` with the Euclidean length is the intended behaviour
    (`Sat.NormalIsUnit`). */
module NormalLength {
  import opened Vec
  import opened Sat

  /** Distance of an integer from the two "all bits equal" values 0 and -1
      of an infinite two's complement representation. */
  function BitMeasure(x: int): (r: nat) {
    if x >= 0 then x else -x - 1
  }

  /** Python's `^` on integers: bitwise exclusive or over the infinite
      two's complement representation. */
  function Xor(a: int, b: int): (r: int)
    decreases BitMeasure(a) + BitMeasure(b)
  {
    if (a == 0 || a == -1) && (b == 0 || b == -1) then
      (if a == b then 0 else -1)
    else
      2 * Xor(a / 2, b / 2) + (if a % 2 == b % 2 then 0 else 1)
  }

  /** The value line 67 hands to `math.sqrt` for an integer edge. */
  function WrittenSquaredLength(e0: int, e1: int): (r: int) {
    Xor(Xor(e0, 2 + e1), 2)
  }

  /** The written expression is not the squared length: the 3-4-5 edge
      yields 7 instead of 25; the non-degenerate edge (1, 1) yields 0, so the
      division at line 69 fails; the edge (-1, 0) yields -1, which
      `math.sqrt` rejects. */
  lemma WrittenLengthCounterexamples()
    ensures WrittenSquaredLength(3, 4) == 7 && 3 * 3 + 4 * 4 == 25
    ensures WrittenSquaredLength(1, 1) == 0 && 1 * 1 + 1 * 1 == 2
    ensures WrittenSquaredLength(-1, 0) == -1
  {
    assert Xor(0, 0) == 0;
    assert Xor(0, 1) == 1;
    assert Xor(1, 0) == 1;
    assert Xor(1, 1) == 0;
    assert Xor(1, 3) == 2;
    assert Xor(0, 2) == 2;
    assert Xor(1, 2) == 3;
    assert Xor(3, 6) == 5;
    assert Xor(2, 2) == 0;
    assert Xor(5, 2) == 7;
    assert Xor(-1, 1) == -2;
    assert Xor(-1, 2) == -3;
    assert Xor(-2, 1) == -1;
    assert Xor(-3, 2) == -1;
  }

  /** Normalising the 3-4-5 edge by the square root of the written value 7
      gives a "normal" whose squared length is 25/7, not 1. */
  lemma WrittenNormalNotUnit(a: Vec2, b: Vec2, length: real)
    requires Sub(b, a) == (3.0, 4.0)
    requires length > 0.0 && length * length == WrittenSquaredLength(3, 4) as real
    ensures GetNormal(a, b, length).Ok?
    ensures var nrm := GetNormal(a, b, length).value;
      Dot(nrm, nrm) == 25.0 / 7.0 && Dot(nrm, nrm) != 1.0
  {
    WrittenLengthCounterexamples();
    var nrm := GetNormal(a, b, length).value;
    var q0, q1 := 3.0 / length, 4.0 / length;
    assert nrm == (-q1, q0);
    assert q0 * length == 3.0 && q1 * length == 4.0;
    calc {
      Dot(nrm, nrm) * 7.0;
      Dot(nrm, nrm) * (length * length);
      (q1 * length) * (q1 * length) + (q0 * length) * (q0 * length);
      25.0;
    }
  }
}

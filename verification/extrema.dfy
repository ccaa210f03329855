/** The smallest and largest element of a non-empty list of reals, as
    Python's built-in `min` and `max` return them. */
module Extrema {
  import opened Vec

  function SeqMin(s: seq<real>): (r: real)
    requires |s| > 0
  {
    if |s| == 1 then s[0] else Min(SeqMin(s[..|s| - 1]), s[|s| - 1])
  }

  function SeqMax(s: seq<real>): (r: real)
    requires |s| > 0
  {
    if |s| == 1 then s[0] else Max(SeqMax(s[..|s| - 1]), s[|s| - 1])
  }

  lemma {:induction false} SeqMinIsMinimum(s: seq<real>)
    requires |s| > 0
    ensures SeqMin(s) in s
    ensures forall i :: 0 <= i < |s| ==> SeqMin(s) <= s[i]
  {
    if |s| > 1 {
      var init := s[..|s| - 1];
      SeqMinIsMinimum(init);
      assert forall i :: 0 <= i < |init| ==> init[i] == s[i];
      assert SeqMin(init) in s;
    }
  }

  lemma {:induction false} SeqMaxIsMaximum(s: seq<real>)
    requires |s| > 0
    ensures SeqMax(s) in s
    ensures forall i :: 0 <= i < |s| ==> s[i] <= SeqMax(s)
  {
    if |s| > 1 {
      var init := s[..|s| - 1];
      SeqMaxIsMaximum(init);
      assert forall i :: 0 <= i < |init| ==> init[i] == s[i];
      assert SeqMax(init) in s;
    }
  }

  /** Adding the same constant to every element shifts both extremes by it. */
  lemma SeqExtremaShift(s: seq<real>, t: seq<real>, c: real)
    requires |s| > 0 && |t| == |s|
    requires forall i :: 0 <= i < |s| ==> t[i] == s[i] + c
    ensures SeqMin(t) == SeqMin(s) + c
    ensures SeqMax(t) == SeqMax(s) + c
  {
    SeqMinIsMinimum(s);
    SeqMinIsMinimum(t);
    SeqMaxIsMaximum(s);
    SeqMaxIsMaximum(t);
    var j :| 0 <= j < |t| && t[j] == SeqMin(t);
    var k :| 0 <= k < |s| && s[k] == SeqMin(s);
    assert SeqMin(t) <= t[k];
    assert SeqMin(s) <= s[j];
    var j' :| 0 <= j' < |t| && t[j'] == SeqMax(t);
    var k' :| 0 <= k' < |s| && s[k'] == SeqMax(s);
    assert t[k'] <= SeqMax(t);
    assert s[j'] <= SeqMax(s);
  }
}

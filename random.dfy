/**
 * numpy's global random state, as the graph builder consumes it: a fixed
 * stream of unit draws (set by `np.random.seed`) and a cursor into it.
 */
module Random {
  import opened Wrappers

  /** A draw of `np.random.random()`: a real in [0, 1). */
  type Unit = u: real | 0.0 <= u < 1.0

  /** Scaling a positive width by a unit draw stays in [0, width). */
  lemma MulBelow(w: real, u: real)
    requires w > 0.0 && 0.0 <= u < 1.0
    ensures 0.0 <= w * u < w
  {
    assert w * u < w * 1.0;
  }

  /** A unit draw scaled by the width `w` of [lo, hi) and shifted by `lo` stays in [lo, hi). */
  lemma ScaledDraw(lo: real, hi: real, w: real, u: real)
    requires w == hi - lo && w > 0.0 && 0.0 <= u < 1.0
    ensures lo <= lo + w * u < hi
  {
    MulBelow(w, u);
  }

  class Rng {
    const stream: nat -> Unit
    var drawn: nat

    constructor (stream: nat -> Unit)
      ensures this.stream == stream && drawn == 0
    {
      this.stream := stream;
      drawn := 0;
    }

    /** `np.random.uniform(lo, hi)`: the next draw scaled to [lo, hi). */
    method Uniform(lo: real, hi: real) returns (x: real)
      requires lo < hi
      modifies this
      ensures drawn == old(drawn) + 1
      ensures x == lo + (hi - lo) * stream(old(drawn))
      ensures lo <= x < hi
    {
      var u := stream(drawn);
      var w := hi - lo;
      ScaledDraw(lo, hi, w, u);
      drawn := drawn + 1;
      x := lo + w * u;
    }

    /**
     * `np.random.randint(lo, hi)`: an integer in [lo, hi), or `None` for the
     * `ValueError` numpy raises when the range is empty.
     */
    method RandInt(lo: int, hi: int) returns (k: Option<int>)
      modifies this
      ensures k.None? <==> hi <= lo
      ensures hi <= lo ==> drawn == old(drawn)
      ensures lo < hi ==> drawn == old(drawn) + 1 && k.value == lo + ((hi - lo) as real * stream(old(drawn))).Floor
      ensures k.Some? ==> lo <= k.value < hi
    {
      if hi <= lo {
        return None;
      }
      var u := stream(drawn);
      var w := (hi - lo) as real;
      ScaledDraw(0.0, w, w, u);
      drawn := drawn + 1;
      var offset := (w * u).Floor;
      return Some(lo + offset);
    }
  }
}

/** `_extender_coordenadas`: appending one polyline to another without repeating the join point. */
module Polylines {
  import opened Geo

  /**
   * The list `acc` after the helper has extended it with `more`: `acc` is kept
   * as a prefix, and what follows is `more`, minus its first point when that
   * point repeats the last point of `acc`.
   */
  function Spliced(acc: seq<Coord>, more: seq<Coord>): (r: seq<Coord>)
    ensures acc <= r
    ensures |r| - |acc| == if acc != [] && more != [] && Last(acc) == more[0] then |more| - 1 else |more|
  {
    if more == [] then acc
    else if acc == [] then more
    else if Last(acc) == more[0] then acc + more[1..]
    else acc + more
  }

  /** What follows `acc` in the splice is `more`, without its first point when that point repeats the last point of `acc`. */
  lemma SplicedTail(acc: seq<Coord>, more: seq<Coord>)
    ensures Spliced(acc, more)[|acc|..] == if acc != [] && more != [] && Last(acc) == more[0] then more[1..] else more
  {
    var r := Spliced(acc, more);
    if more == [] {
      assert r == acc;
    } else if acc == [] {
      assert r == more;
    } else if Last(acc) == more[0] {
      assert r == acc + more[1..];
    } else {
      assert r == acc + more;
    }
  }

  /** The splice starts where `acc` starts (or, if `acc` is empty, where `more` starts) and ends where `more` ends. */
  lemma SplicedEnds(acc: seq<Coord>, more: seq<Coord>)
    ensures acc != [] ==> Spliced(acc, more)[0] == acc[0]
    ensures acc == [] ==> Spliced(acc, more) == more
    ensures more != [] ==> Spliced(acc, more) != [] && Last(Spliced(acc, more)) == Last(more)
  {
  }

  /** A Python list of points that `Extend` mutates in place. */
  class Polyline {
    var points: seq<Coord>

    constructor ()
      ensures points == []
    {
      points := [];
    }

    /** `_extender_coordenadas(self.points, more)`. */
    method Extend(more: seq<Coord>)
      modifies this
      ensures points == Spliced(old(points), more)
    {
      if more == [] {
        return;
      }
      if points == [] {
        points := points + more;
      } else if points[|points| - 1] == more[0] {
        points := points + more[1..];
      } else {
        points := points + more;
      }
    }
  }
}

/**
 * The route-ranking formulas of `calcular_rutas_optimas_por_produccion` and
 * `priorizar_parcelas_por_rendimiento`: the per-criterion edge weight, the
 * rain adjustment, and Python's slice `[:top_n]`.
 */
module Ranking {
  import opened Routes
  import opened Edges

  /** `criterio`: "costo", "tiempo", "distancia", "accesibilidad", or anything else. */
  datatype Criterion = ByCost | ByTime | ByDistance | ByAccessibility | ByOther

  function ParseCriterion(s: string): (c: Criterion)
    ensures c == ByCost <==> s == "costo"
    ensures c == ByTime <==> s == "tiempo"
    ensures c == ByDistance <==> s == "distancia"
    ensures c == ByAccessibility <==> s == "accesibilidad"
    ensures c == ByOther <==> s !in ["costo", "tiempo", "distancia", "accesibilidad"]
  {
    if s == "costo" then ByCost
    else if s == "tiempo" then ByTime
    else if s == "distancia" then ByDistance
    else if s == "accesibilidad" then ByAccessibility
    else ByOther
  }

  /** Whether computing the weight divides by the edge's rain accessibility. */
  predicate DividesByAccess(c: Criterion, rain: bool) {
    c == ByAccessibility || rain
  }

  /**
   * `peso`: the edge's total cost for the predicted production, its minutes,
   * its kilometres, the inverse of its rain accessibility, or its cost per
   * ton for an unknown criterion; divided once more by the accessibility when
   * rain is considered.
   */
  function Weight(c: Criterion, a: EdgeAttrs, production: real, rain: bool): real
    requires DividesByAccess(c, rain) ==> a.rainAccess != 0.0
  {
    var base := match c
      case ByCost => a.costPerTon * production
      case ByTime => a.minutes
      case ByDistance => a.km
      case ByAccessibility => 1.0 / a.rainAccess
      case ByOther => a.costPerTon;
    if rain then base / a.rainAccess else base
  }

  lemma DivPositive(x: real, y: real)
    requires x > 0.0 && y > 0.0
    ensures x / y > 0.0
  {
  }

  lemma InverseAntitone(x: real, y: real)
    requires 0.0 < x && 0.0 < y
    ensures 1.0 / x <= 1.0 / y <==> y <= x
  {
    if y <= x {
      assert 1.0 / x * x == 1.0 && 1.0 / y * y == 1.0;
      assert 1.0 / x * y <= 1.0 / x * x;
    } else {
      assert 1.0 / y * x <= 1.0 / y * y;
    }
  }

  lemma DivByAccessBelowOne(w: real, acc: real)
    requires w >= 0.0 && 0.0 < acc < 1.0
    ensures w / acc >= w
  {
    assert w / acc * acc == w;
  }

  /** Considering rain never makes a non-negative weight smaller, since accessibility is below 1. */
  lemma RainNeverLowersWeight(c: Criterion, a: EdgeAttrs, production: real)
    requires WellFormed(a)
    requires Weight(c, a, production, false) >= 0.0
    ensures Weight(c, a, production, true) >= Weight(c, a, production, false)
  {
    RainAccessOpenUnit(a);
    DivByAccessBelowOne(Weight(c, a, production, false), a.rainAccess);
  }

  /**
   * The accessibility criterion, with or without rain, ranks the more
   * accessible of two edges first: the weight of `a` is at most that of `b`
   * exactly when `a` is at least as accessible.
   */
  lemma AccessibilityPrefersAccessible(a: EdgeAttrs, b: EdgeAttrs, production: real, rain: bool)
    requires WellFormed(a) && WellFormed(b)
    ensures Weight(ByAccessibility, a, production, rain) <= Weight(ByAccessibility, b, production, rain)
      <==> b.rainAccess <= a.rainAccess
  {
    RainAccessOpenUnit(a);
    RainAccessOpenUnit(b);
    var x, y := a.rainAccess, b.rainAccess;
    if rain {
      InverseSquareAntitone(x, y);
    } else {
      InverseAntitone(x, y);
    }
  }

  lemma SquareMonotone(x: real, y: real)
    requires 0.0 < x && 0.0 < y
    ensures x * x <= y * y <==> x <= y
  {
    if x <= y {
      assert x * x <= x * y <= y * y;
    } else {
      assert y * y <= y * x <= x * x;
      assert y * y < x * x by {
        assert y * y < y * x;
      }
    }
  }

  lemma InverseSquareAntitone(x: real, y: real)
    requires 0.0 < x && 0.0 < y
    ensures 1.0 / x / x <= 1.0 / y / y <==> y <= x
  {
    DivTwice(x);
    DivTwice(y);
    SquareMonotone(y, x);
    MulPositive(x);
    MulPositive(y);
    InverseAntitone(x * x, y * y);
  }

  lemma MulPositive(x: real)
    requires 0.0 < x
    ensures x * x > 0.0
  {
  }

  lemma DivTwice(x: real)
    requires 0.0 < x
    ensures 1.0 / x / x == 1.0 / (x * x)
  {
    MulPositive(x);
    assert (1.0 / x / x) * (x * x) == 1.0;
  }

  /** With a positive production, the cost criterion ranks edges by their cost per ton. */
  lemma CostWeightFollowsCost(a: EdgeAttrs, b: EdgeAttrs, production: real)
    requires production > 0.0
    ensures Weight(ByCost, a, production, false) <= Weight(ByCost, b, production, false)
      <==> a.costPerTon <= b.costPerTon
  {
    if a.costPerTon <= b.costPerTon {
      assert a.costPerTon * production <= b.costPerTon * production;
    } else {
      assert b.costPerTon * production < a.costPerTon * production;
    }
  }

  /**
   * How many entries Python's `entries[:top_n]` keeps: `top_n` of them
   * (at most all), or for a negative `top_n` all but the last `-top_n`.
   */
  function PrefixLen(n: nat, topN: int): (k: nat)
    ensures k <= n
    ensures 0 <= topN ==> k == if topN <= n then topN else n
    ensures topN < 0 ==> k + (if -topN <= n then -topN else n) == n
  {
    if 0 <= topN then (if topN <= n then topN else n)
    else if n + topN >= 0 then n + topN else 0
  }
}

/**
Parameter values on their way from controller to processor: the normalization
of src/common/parameter_utils.hpp and the catalog lookup of HostedPlugin.
 */
module ParameterValues {
  import opened Wrappers

  type ParamId = nat

  datatype Parameter = Parameter(id: ParamId, stepCount: int)

  function Clamp(v: real): real {
    if v < 0.0 then 0.0 else if v > 1.0 then 1.0 else v
  }

  // Round to the nearest of stepCount + 1 equally spaced values.
  function Normalize(v: real, stepCount: int): real {
    if stepCount <= 0 then Clamp(v)
    else Clamp((Clamp(v) * (stepCount as real) + 0.5).Floor as real / (stepCount as real))
  }

  function Find(catalog: seq<Parameter>, id: ParamId): Option<Parameter> {
    if catalog == [] then None
    else if catalog[0].id == id then Some(catalog[0])
    else Find(catalog[1..], id)
  }

  // The value the processor is given for an edit of parameter `id`.
  function Normalized(catalog: seq<Parameter>, id: ParamId, v: real): real {
    match Find(catalog, id)
    case Some(p) => Normalize(v, p.stepCount)
    case None => v
  }

  ghost predicate Catalogued(catalog: seq<Parameter>, id: ParamId) {
    exists j :: 0 <= j < |catalog| && catalog[j].id == id
  }

  // The k-th of the n + 1 values of a stepped parameter.
  ghost function Step(k: nat, n: int): real
    requires n > 0
  {
    k as real / n as real
  }

  // d is what the processor is to have for the controller's v: v itself if the
  // parameter is continuous, otherwise one of the equally spaced values, at most
  // half a step away, and the upper one of two equally near.  Values outside
  // [0, 1] go to the nearer end.
  ghost predicate Nearest(stepCount: int, v: real, d: real) {
    && (v <= 0.0 ==> d == 0.0)
    && (v >= 1.0 ==> d == 1.0)
    && (0.0 <= v <= 1.0 && stepCount <= 0 ==> d == v)
    && (0.0 <= v <= 1.0 && stepCount > 0 ==>
          && (exists k: nat :: k <= stepCount && d == Step(k, stepCount))
          && -1.0 < 2.0 * (d * stepCount as real) - 2.0 * (v * stepCount as real) <= 1.0)
  }

  // The catalog entry that find_parameter returns.
  ghost predicate First(catalog: seq<Parameter>, j: nat) {
    j < |catalog| && forall i :: 0 <= i < j ==> catalog[i].id != catalog[j].id
  }

  // d is what an edit of the catalogued parameter `id` to v comes to.
  ghost predicate Carries(catalog: seq<Parameter>, id: ParamId, v: real, d: real) {
    exists j: nat :: First(catalog, j) && catalog[j].id == id && Nearest(catalog[j].stepCount, v, d)
  }

  lemma Scaled(x: real, y: real, n: real)
    requires x < y && n > 0.0
    ensures x * n < y * n
  {
    assert (y - x) * n > 0.0;
  }

  lemma Unscaled(x: real, y: real, n: real)
    requires x * n == y * n && n > 0.0
    ensures x == y
  {
    if x < y {
      Scaled(x, y, n);
    } else if y < x {
      Scaled(y, x, n);
    }
  }

  lemma Times(v: real, n: real)
    requires 0.0 <= v <= 1.0 && n > 0.0
    ensures 0.0 <= v * n <= n && (v == 0.0 ==> v * n == 0.0) && (v == 1.0 ==> v * n == n)
  {
    if v > 0.0 { Scaled(0.0, v, n); }
    if v < 1.0 { Scaled(v, 1.0, n); }
  }

  lemma StepIs(k: nat, n: int)
    requires 0 <= k <= n && n > 0
    ensures Step(k, n) * n as real == k as real && 0.0 <= Step(k, n) <= 1.0
    ensures (k == 0 ==> Step(k, n) == 0.0) && (k == n ==> Step(k, n) == 1.0)
  {
    var d, r := Step(k, n), n as real;
    assert d * r == k as real;
    hide Step;
    if d < 0.0 { Scaled(d, 0.0, r); }
    if d > 1.0 { Scaled(1.0, d, r); }
    if k == 0 { Unscaled(d, 0.0, r); }
    if k == n { Unscaled(d, 1.0, r); }
  }

  lemma NormalizeIsNearest(v: real, stepCount: int)
    ensures Nearest(stepCount, v, Normalize(v, stepCount))
  {
    if stepCount > 0 {
      var x := Clamp(v) * stepCount as real;
      Times(Clamp(v), stepCount as real);
      var k := (x + 0.5).Floor;
      StepIs(k, stepCount);
      assert Normalize(v, stepCount) == Step(k, stepCount);
    }
  }

  // Only one value is nearest.
  lemma NearestIsOne(stepCount: int, v: real, d: real, e: real)
    requires Nearest(stepCount, v, d) && Nearest(stepCount, v, e)
    ensures d == e
  {
    if stepCount > 0 && 0.0 <= v <= 1.0 {
      var k: nat :| k <= stepCount && d == Step(k, stepCount);
      var m: nat :| m <= stepCount && e == Step(m, stepCount);
      StepIs(k, stepCount);
      StepIs(m, stepCount);
      hide Step;
      var x := v * stepCount as real;
      assert -1.0 < 2.0 * k as real - 2.0 * x <= 1.0 && -1.0 < 2.0 * m as real - 2.0 * x <= 1.0;
      SameStep(k, m, x);
    }
  }

  // At most one whole number is within half of x, the upper one of two as near.
  lemma SameStep(k: nat, m: nat, x: real)
    requires -1.0 < 2.0 * k as real - 2.0 * x <= 1.0 && -1.0 < 2.0 * m as real - 2.0 * x <= 1.0
    ensures k == m
  {
    assert (k - m) as real == k as real - m as real;
    assert -1.0 < (k - m) as real < 1.0;
  }

  lemma {:induction false} FindIsFirst(catalog: seq<Parameter>, j: nat)
    requires First(catalog, j)
    ensures Find(catalog, catalog[j].id) == Some(catalog[j])
  {
    if j > 0 {
      assert First(catalog[1..], j - 1);
      FindIsFirst(catalog[1..], j - 1);
    }
  }

  lemma {:induction false} FirstOf(catalog: seq<Parameter>, id: ParamId) returns (j: nat)
    requires exists i :: 0 <= i < |catalog| && catalog[i].id == id
    ensures First(catalog, j) && catalog[j].id == id
  {
    if catalog[0].id == id {
      j := 0;
    } else {
      var i := FirstOf(catalog[1..], id);
      j := i + 1;
      assert forall k :: 0 < k < j ==> catalog[k] == catalog[1..][k - 1];
    }
  }

  // What the bridge delivers is exactly what the parameter's first entry asks for.
  lemma NormCarries(catalog: seq<Parameter>, id: ParamId, v: real, d: real)
    requires Catalogued(catalog, id)
    ensures Carries(catalog, id, v, d) <==> d == Normalized(catalog, id, v)
  {
    hide Nearest, Normalize;
    var j := FirstOf(catalog, id);
    FindIsFirst(catalog, j);
    NormalizeIsNearest(v, catalog[j].stepCount);
    if Carries(catalog, id, v, d) {
      var i: nat :| First(catalog, i) && catalog[i].id == id && Nearest(catalog[i].stepCount, v, d);
      assert !(i < j) && !(j < i);
      NearestIsOne(catalog[j].stepCount, v, d, Normalized(catalog, id, v));
    }
  }
}

/** What single moves cost, and when a ratio allows none. */
module EditMoves {
  import opened EditDistance

  /** Moving a character over a text that holds another one costs exactly two edits. */
  lemma {:induction false} MovingCostsTwo(u: string, v: string, y: char, w: string, k: nat)
    requires k < |v| && v[k] != y
    ensures Distance(u + v + [y] + w, u + [y] + v + w) == 2
  {
    var left, right := u + v + [y] + w, u + [y] + v + w;
    MovingTakesTwo(u, v, y, w);
    DistanceIsLeastScript(left, right);
    var best := BestScript(left, right);
    if |best| < 2 {
      MovingChangesTwoPlaces(u, v, y, w, k);
      var first, last := FirstOther(v, y, k), LastOther(v, y, k);
      OneEditChangesOnePlace(best, left, right, |u| + first, |u| + last + 1);
    }
  }

  lemma MovingTakesTwo(u: string, v: string, y: char, w: string)
    ensures Turns([Insert(|u|, y), Delete(|u| + 1 + |v|)], u + v + [y] + w, u + [y] + v + w)
  {
    var left, right, middle := u + v + [y] + w, u + [y] + v + w, u + [y] + v + [y] + w;
    var script := [Insert(|u|, y), Delete(|u| + 1 + |v|)];
    assert Apply(script[0], left) == middle;
    assert Apply(script[1], middle) == right;
    assert script[1..] == [script[1]] && script[1..][1..] == [];
    assert Turns(script[1..], middle, right);
  }

  lemma MovingChangesTwoPlaces(u: string, v: string, y: char, w: string, k: nat)
    requires k < |v| && v[k] != y
    ensures var left, right := u + v + [y] + w, u + [y] + v + w;
            var first, last := |u| + FirstOther(v, y, k), |u| + LastOther(v, y, k) + 1;
            first < last < |left| == |right| && left[first] != right[first] && left[last] != right[last]
  {
    var first, last := FirstOther(v, y, k), LastOther(v, y, k);
    var left, right := u + v + [y] + w, u + [y] + v + w;
    assert left[|u| + first] == v[first];
    assert right[|u| + first] == ([y] + v)[first] == y;
    assert left[|u| + last + 1] == (v + [y])[last + 1] == y;
    assert right[|u| + last + 1] == v[last];
  }

  /** The first place of `v` that does not hold `y`. */
  function FirstOther(v: string, y: char, k: nat): (i: nat)
    requires k < |v| && v[k] != y
    ensures i <= k && v[i] != y && forall j :: 0 <= j < i ==> v[j] == y
  {
    if v[0] != y then 0 else 1 + FirstOther(v[1..], y, k - 1)
  }

  function LastOther(v: string, y: char, k: nat): (i: nat)
    requires k < |v| && v[k] != y
    ensures k <= i < |v| && v[i] != y && forall j :: i < j < |v| ==> v[j] == y
  {
    if v[|v| - 1] != y then |v| - 1 else LastOther(v[..|v| - 1], y, k)
  }

  /** One edit that is not idle costs exactly one. */
  lemma {:induction false} OneEditCostsOne(e: Edit, s: string)
    requires Applicable(e, s) && Apply(e, s) != s
    ensures Distance(s, Apply(e, s)) == 1
  {
    DistanceZeroIffEqual(s, Apply(e, s));
    DistanceIsLeastScript(s, Apply(e, s));
    assert [e][1..] == [];
    assert Turns([e], s, Apply(e, s));
  }

  // ---------- when the ratio allows no edit ----------

  lemma AllowanceGrows(m: nat, n: nat, ratio: real)
    requires 0.0 <= ratio && m <= n
    ensures Allowance(m, ratio) <= Allowance(n, ratio)
  {
    assert ratio * m as real <= ratio * n as real;
  }

  /** When no edit is allowed on one more character, none is within the ratio, however long the result. */
  lemma NoGrowthAllowed(n: nat, m: nat, d: nat, ratio: real)
    requires 0.0 <= ratio && Allowance(n + 1, ratio) < 1 && m - n <= d
    requires d <= Allowance(if n >= m then n else m, ratio)
    ensures d == 0
  {
    if m <= n + 1 {
      AllowanceGrows(if n >= m then n else m, n + 1, ratio);
    } else {
      TooFewForGrowth(n as real, m as real, ratio);
    }
  }

  lemma TooFewForGrowth(n: real, m: real, ratio: real)
    requires 0.0 <= n && n + 2.0 <= m && ratio * (n + 1.0) < 1.0
    ensures ratio * m < m - n
  {
    var g := m - n - 1.0;
    ProductsGrow(0.0, n, g);
    assert (m - n) * (n + 1.0) == m + n * g;
    assert ratio * m * (n + 1.0) == ratio * (n + 1.0) * m;
    ProductsShrink(ratio * (n + 1.0), 1.0, m);
    if m - n <= ratio * m {
      ProductsGrow(m - n, ratio * m, n + 1.0);
    }
  }

  lemma ProductsGrow(a: real, b: real, c: real)
    requires a <= b && 0.0 <= c
    ensures a * c <= b * c
  {
  }

  lemma ProductsShrink(a: real, b: real, c: real)
    requires a < b && 0.0 < c
    ensures a * c < b * c
  {
  }
}

/**
 Edit scripts and the two-row Levenshtein loop of `_normalized_edit_distance`.
 A script is any sequence of single-character edits, each at any position of
 the string it meets; `Distance` is the recurrence the loop tabulates.
 */
module EditDistance {

  datatype Edit =
    | Insert(at: nat, c: char)
    | Delete(at: nat)
    | Substitute(at: nat, c: char)

  predicate Applicable(e: Edit, s: string) {
    match e
    case Insert(at, _) => at <= |s|
    case Delete(at) => at < |s|
    case Substitute(at, _) => at < |s|
  }

  function Apply(e: Edit, s: string): string
    requires Applicable(e, s)
  {
    match e
    case Insert(at, c) => s[..at] + [c] + s[at..]
    case Delete(at) => s[..at] + s[at + 1..]
    case Substitute(at, c) => s[..at] + [c] + s[at + 1..]
  }

  /** The script, applied from its first edit on, turns `left` into `right`. */
  predicate Turns(script: seq<Edit>, left: string, right: string) {
    if script == [] then left == right
    else Applicable(script[0], left) && Turns(script[1..], Apply(script[0], left), right)
  }

  function Front(s: string): string
    requires s != []
  {
    s[..|s| - 1]
  }

  function Last(s: string): char
    requires s != []
  {
    s[|s| - 1]
  }

  function Min(a: nat, b: nat): nat {
    if a <= b then a else b
  }

  function Mismatch(a: char, b: char): nat {
    if a != b then 1 else 0
  }

  function Distance(left: string, right: string): nat
    decreases |left| + |right|
  {
    if left == [] then |right|
    else if right == [] then |left|
    else Min(Min(Distance(left, Front(right)) + 1,
                 Distance(Front(left), right) + 1),
             Distance(Front(left), Front(right)) + Mismatch(Last(left), Last(right)))
  }

  // ---------- one edit of the right string moves the distance by at most one ----------

  ghost predicate Near(a: int, b: int) {
    a - b <= 1 && b - a <= 1
  }

  /** Appending one character moves the distance by at most one. */
  lemma {:induction false} AppendNear(a: string, u: string, c: char)
    ensures Near(Distance(a, u + [c]), Distance(a, u))
    decreases |a|
  {
    assert Front(u + [c]) == u;
    if a != [] {
      AppendNear(Front(a), u, c);
      ShrinkNear(a, u);
    }
  }

  /** Dropping the last character of the left string costs at most one deletion. */
  lemma {:induction false} ShrinkNear(a: string, u: string)
    requires a != []
    ensures Distance(a, u) <= Distance(Front(a), u) + 1
  {
  }

  /** Two last characters in place of each other. */
  lemma {:induction false} LastNear(a: string, u: string, c: char, d: char)
    ensures Near(Distance(a, u + [c]), Distance(a, u + [d]))
    decreases |a|
  {
    assert Front(u + [c]) == u && Front(u + [d]) == u;
    if a != [] {
      LastNear(Front(a), u, c, d);
    }
  }

  /** The two right strings differ in one place: `m` against `n`, at most a character each. */
  lemma {:induction false} PlaceNear(a: string, u: string, m: string, n: string, v: string)
    requires |m| <= 1 && |n| <= 1
    ensures Near(Distance(a, u + m + v), Distance(a, u + n + v))
    decreases |v|, |a|
  {
    if v == [] {
      assert u + m + v == u + m && u + n + v == u + n;
      if m == [] && n != [] {
        assert n == [n[0]] && u + m == u;
        AppendNear(a, u, n[0]);
      } else if n == [] && m != [] {
        assert m == [m[0]] && u + n == u;
        AppendNear(a, u, m[0]);
      } else if m != [] {
        assert m == [m[0]] && n == [n[0]];
        LastNear(a, u, m[0], n[0]);
      } else {
        assert m == n;
      }
    } else {
      assert Front(u + m + v) == u + m + Front(v);
      assert Front(u + n + v) == u + n + Front(v);
      if a != [] {
        PlaceNear(a, u, m, n, Front(v));
        PlaceNear(Front(a), u, m, n, v);
        PlaceNear(Front(a), u, m, n, Front(v));
      }
    }
  }

  lemma {:induction false} EditNear(origin: string, e: Edit, s: string)
    requires Applicable(e, s)
    ensures Distance(origin, Apply(e, s)) <= Distance(origin, s) + 1
    ensures Distance(origin, s) <= Distance(origin, Apply(e, s)) + 1
  {
    match e
    case Insert(at, c) =>
      assert s == s[..at] + [] + s[at..];
      PlaceNear(origin, s[..at], [c], [], s[at..]);
    case Delete(at) =>
      assert s == s[..at] + [s[at]] + s[at + 1..];
      assert s[..at] + s[at + 1..] == s[..at] + [] + s[at + 1..];
      PlaceNear(origin, s[..at], [], [s[at]], s[at + 1..]);
    case Substitute(at, c) =>
      assert s == s[..at] + [s[at]] + s[at + 1..];
      PlaceNear(origin, s[..at], [c], [s[at]], s[at + 1..]);
  }

  /** No script is shorter than the change in distance from any fixed origin. */
  lemma {:induction false} ScriptIsLongEnough(origin: string, script: seq<Edit>, left: string, right: string)
    requires Turns(script, left, right)
    ensures Distance(origin, right) <= Distance(origin, left) + |script|
    decreases |script|
  {
    if script != [] {
      EditNear(origin, script[0], left);
      ScriptIsLongEnough(origin, script[1..], Apply(script[0], left), right);
    }
  }

  lemma {:induction false} DistanceToSelf(s: string)
    ensures Distance(s, s) == 0
    decreases |s|
  {
    if s != [] {
      DistanceToSelf(Front(s));
    }
  }

  // ---------- scripts compose, extend and reverse ----------

  lemma {:induction false} TurnsThen(first: seq<Edit>, second: seq<Edit>, a: string, b: string, c: string)
    requires Turns(first, a, b) && Turns(second, b, c)
    ensures Turns(first + second, a, c)
    decreases |first|
  {
    if first == [] {
      assert first + second == second;
    } else {
      assert (first + second)[1..] == first[1..] + second;
      TurnsThen(first[1..], second, Apply(first[0], a), b, c);
    }
  }

  lemma ApplyBefore(e: Edit, a: string, tail: string)
    requires Applicable(e, a)
    ensures Applicable(e, a + tail) && Apply(e, a + tail) == Apply(e, a) + tail
  {
    assert (a + tail)[..e.at] == a[..e.at];
    match e
    case Insert(at, c) =>
      assert (a + tail)[at..] == a[at..] + tail;
    case Delete(at) =>
      assert (a + tail)[at + 1..] == a[at + 1..] + tail;
    case Substitute(at, c) =>
      assert (a + tail)[at + 1..] == a[at + 1..] + tail;
  }

  /** A script works the same in front of an untouched tail. */
  lemma {:induction false} TurnsBefore(script: seq<Edit>, a: string, b: string, tail: string)
    requires Turns(script, a, b)
    ensures Turns(script, a + tail, b + tail)
    decreases |script|
  {
    if script != [] {
      ApplyBefore(script[0], a, tail);
      TurnsBefore(script[1..], Apply(script[0], a), b, tail);
    }
  }

  function Undo(e: Edit, s: string): Edit
    requires Applicable(e, s)
  {
    match e
    case Insert(at, _) => Delete(at)
    case Delete(at) => Insert(at, s[at])
    case Substitute(at, _) => Substitute(at, s[at])
  }

  lemma {:induction false} ReverseScript(script: seq<Edit>, a: string, b: string) returns (back: seq<Edit>)
    requires Turns(script, a, b)
    ensures Turns(back, b, a) && |back| == |script|
    decreases |script|
  {
    if script == [] {
      back := [];
    } else {
      var mid := Apply(script[0], a);
      var undo := Undo(script[0], a);
      assert Applicable(undo, mid) && Apply(undo, mid) == a;
      var rest := ReverseScript(script[1..], mid, b);
      assert [undo][1..] == [];
      assert Turns([undo], mid, a);
      TurnsThen(rest, [undo], b, mid, a);
      back := rest + [undo];
    }
  }

  lemma {:induction false} InsertAll(right: string) returns (script: seq<Edit>)
    ensures Turns(script, [], right) && |script| == |right|
    decreases |right|
  {
    if right == [] {
      script := [];
    } else {
      var rest := InsertAll(Front(right));
      script := rest + [AppendEdit(Front(right), Last(right))];
      TurnsThen(rest, [AppendEdit(Front(right), Last(right))], [], Front(right), right);
    }
  }

  /** The single edit that appends `c` to `s`. */
  function AppendEdit(s: string, c: char): (e: Edit)
    ensures Turns([e], s, s + [c])
  {
    var e := Insert(|s|, c);
    assert Apply(e, s) == s + [c] && [e][1..] == [];
    assert Turns([], s + [c], s + [c]);
    e
  }

  lemma {:induction false} BestScript(left: string, right: string) returns (script: seq<Edit>)
    ensures Turns(script, left, right) && |script| == Distance(left, right)
    decreases |left| + |right|
  {
    if left == [] {
      script := InsertAll(right);
    } else if right == [] {
      var build := InsertAll(left);
      script := ReverseScript(build, [], left);
    } else {
      var a, b, x, y := Front(left), Front(right), Last(left), Last(right);
      assert left == a + [x] && right == b + [y];
      if Distance(left, right) == Distance(left, b) + 1 {
        var rest := BestScript(left, b);
        TurnsThen(rest, [AppendEdit(b, y)], left, b, right);
        script := rest + [AppendEdit(b, y)];
      } else if Distance(left, right) == Distance(a, right) + 1 {
        var rest := BestScript(a, right);
        var drop := ReverseScript([AppendEdit(a, x)], a, left);
        TurnsThen(drop, rest, left, a, right);
        script := drop + rest;
      } else {
        var rest := BestScript(a, b);
        TurnsBefore(rest, a, b, [x]);
        if x == y {
          script := rest;
        } else {
          var swap := Substitute(|b|, y);
          assert Apply(swap, b + [x]) == right && [swap][1..] == [];
          assert Turns([], right, right);
          TurnsThen(rest, [swap], left, b + [x], right);
          script := rest + [swap];
        }
      }
    }
  }

  // ---------- main results ----------

  /** The tabulated value is the least length of any script from `left` to `right`. */
  lemma DistanceIsLeastScript(left: string, right: string)
    ensures exists script :: Turns(script, left, right) && |script| == Distance(left, right)
    ensures forall script :: Turns(script, left, right) ==> Distance(left, right) <= |script|
  {
    var best := BestScript(left, right);
    forall script | Turns(script, left, right)
      ensures Distance(left, right) <= |script|
    {
      DistanceToSelf(left);
      ScriptIsLongEnough(left, script, left, right);
    }
  }

  lemma {:induction false} DistanceSymmetric(left: string, right: string)
    ensures Distance(left, right) == Distance(right, left)
  {
    var there := BestScript(left, right);
    var back := ReverseScript(there, left, right);
    var there' := BestScript(right, left);
    var back' := ReverseScript(there', right, left);
    DistanceIsLeastScript(left, right);
    DistanceIsLeastScript(right, left);
  }

  lemma {:induction false} DistanceTriangle(a: string, b: string, c: string)
    ensures Distance(a, c) <= Distance(a, b) + Distance(b, c)
  {
    var first := BestScript(a, b);
    var second := BestScript(b, c);
    TurnsThen(first, second, a, b, c);
    DistanceIsLeastScript(a, c);
  }

  lemma {:induction false} DistanceZeroIffEqual(left: string, right: string)
    ensures Distance(left, right) == 0 <==> left == right
  {
    var best := BestScript(left, right);
    DistanceToSelf(left);
  }

  /** Exchanging two different characters costs exactly two edits. */
  lemma {:induction false} ExchangeCostsTwo(u: string, x: char, v: string, y: char, w: string)
    requires x != y
    ensures Distance(u + [x] + v + [y] + w, u + [y] + v + [x] + w) == 2
  {
    var left, right := u + [x] + v + [y] + w, u + [y] + v + [x] + w;
    var first, second := Substitute(|u|, y), Substitute(|u| + 1 + |v|, x);
    var middle := u + [y] + v + [y] + w;
    assert Apply(first, left) == middle && Apply(second, middle) == right;
    assert [first, second][1..] == [second] && [second][1..] == [];
    assert Turns([second], middle, right);
    assert Turns([first, second], left, right);
    DistanceIsLeastScript(left, right);
    var best := BestScript(left, right);
    if |best| < 2 {
      OneEditChangesOnePlace(best, left, right, |u|, |u| + 1 + |v|);
    }
  }

  /** A script of at most one edit between strings of equal length leaves all places but one alone. */
  lemma {:induction false} OneEditChangesOnePlace(script: seq<Edit>, left: string, right: string, i: nat, j: nat)
    requires Turns(script, left, right) && |script| <= 1 && |left| == |right| && i < j < |left|
    ensures left[i] == right[i] || left[j] == right[j]
  {
    if script != [] {
      assert Turns([], Apply(script[0], left), right);
    }
  }

  /** Every edit changes the length by at most one. */
  lemma {:induction false} DistanceCoversLengths(left: string, right: string)
    ensures |right| - |left| <= Distance(left, right)
    ensures |left| - |right| <= Distance(left, right)
    ensures Distance(left, right) <= MaxLength(left, right)
    decreases |left| + |right|
  {
    if left != [] && right != [] {
      DistanceCoversLengths(left, Front(right));
      DistanceCoversLengths(Front(left), right);
      DistanceCoversLengths(Front(left), Front(right));
    }
  }

  // ---------- the loop ----------

  function MaxLength(left: string, right: string): nat {
    if |left| >= |right| then |left| else |right|
  }

  /** Least script length over the longer length; equal strings are at distance zero. */
  function Normalized(left: string, right: string): (r: real)
    ensures 0.0 <= r <= 1.0
  {
    DistanceCoversLengths(left, right);
    if MaxLength(left, right) == 0 then 0.0
    else
      RatioInUnit(Distance(left, right), MaxLength(left, right));
      Distance(left, right) as real / MaxLength(left, right) as real
  }

  lemma RatioInUnit(a: nat, b: nat)
    requires 0 < b && a <= b
    ensures 0.0 <= a as real / b as real <= 1.0
  {
  }

  /** The number of edits that `ratio` allows on strings whose longer one has `n` characters. */
  function Allowance(n: nat, ratio: real): int {
    (ratio * n as real).Floor
  }

  lemma AllowanceIsNatural(n: nat, ratio: real)
    requires 0.0 <= ratio
    ensures 0 <= Allowance(n, ratio)
  {
    assert 0.0 <= ratio * n as real;
  }

  lemma {:induction false} NormalizedComparesEdits(left: string, right: string, ratio: real)
    requires 0 < MaxLength(left, right)
    ensures Normalized(left, right) <= ratio <==> Distance(left, right) <= Allowance(MaxLength(left, right), ratio)
  {
    QuotientBound(Distance(left, right), MaxLength(left, right), ratio);
  }

  lemma QuotientBound(d: nat, n: nat, ratio: real)
    requires 0 < n
    ensures d as real / n as real <= ratio <==> d <= Allowance(n, ratio)
  {
    var q, m := d as real / n as real, n as real;
    assert d as real == q * m;
    if d <= Allowance(n, ratio) {
      assert q * m <= ratio * m;
      assert q <= ratio;
    }
  }

  /** Few edits mean that neither length is much shorter than the other. */
  ghost predicate LengthsWithin(l: nat, r: nat, ratio: real) {
    && (1.0 - ratio) * r as real <= l as real
    && (1.0 - ratio) * l as real <= r as real
  }

  lemma {:induction false} FewEditsKeepLength(left: string, right: string, ratio: real)
    requires 0.0 <= ratio && Distance(left, right) <= Allowance(MaxLength(left, right), ratio)
    ensures LengthsWithin(|left|, |right|, ratio)
  {
    DistanceCoversLengths(left, right);
    LengthsFromEdits(|left|, |right|, MaxLength(left, right), Distance(left, right), ratio);
  }

  lemma LengthsFromEdits(l: nat, r: nat, longer: nat, d: nat, ratio: real)
    requires 0.0 <= ratio && (longer == l >= r || longer == r >= l)
    requires r - l <= d && l - r <= d && d <= Allowance(longer, ratio)
    ensures LengthsWithin(l, r, ratio)
  {
    LengthBound(l as real, r as real, longer as real, d as real, ratio);
    LengthBound(r as real, l as real, longer as real, d as real, ratio);
  }

  lemma LengthBound(s: real, r: real, longer: real, d: real, ratio: real)
    requires 0.0 <= ratio && 0.0 <= r && (longer == s >= r || longer == r >= s)
    requires r - s <= d <= ratio * longer
    ensures (1.0 - ratio) * r <= s
  {
    assert 0.0 <= ratio * r;
  }

  /** `row` is row `i` of the table, filled up to column `|row| - 1`. */
  ghost predicate IsRow(row: seq<nat>, left: string, right: string, i: nat) {
    && i <= |left|
    && |row| <= |right| + 1
    && forall j :: 0 <= j < |row| ==> row[j] == Distance(left[..i], right[..j])
  }

  /** The entry the inner loop appends, from the row above and the row so far. */
  function NextCell(above: seq<nat>, row: seq<nat>, a: char, b: char): nat
    requires 0 < |row| < |above|
  {
    Min(Min(row[|row| - 1] + 1, above[|row|] + 1), above[|row| - 1] + Mismatch(a, b))
  }

  lemma NextCellExtendsRow(above: seq<nat>, row: seq<nat>, left: string, right: string, i: nat)
    requires 0 < i <= |left| && 0 < |row| < |above| == |right| + 1
    requires IsRow(above, left, right, i - 1) && IsRow(row, left, right, i)
    ensures IsRow(row + [NextCell(above, row, left[i - 1], right[|row| - 1])], left, right, i)
  {
    var j := |row|;
    assert Front(left[..i]) == left[..i - 1] && Last(left[..i]) == left[i - 1];
    assert Front(right[..j]) == right[..j - 1] && Last(right[..j]) == right[j - 1];
    assert Distance(left[..i], right[..j]) == NextCell(above, row, left[i - 1], right[j - 1]);
  }

  lemma FirstRow(left: string, right: string, row: seq<nat>)
    requires |row| == |right| + 1 && forall j :: 0 <= j < |row| ==> row[j] == j
    ensures IsRow(row, left, right, 0)
  {
    assert left[..0] == [];
  }

  /** The last cell of the table, computed row by row with two rows in memory. */
  method LastCell(left: string, right: string) returns (d: nat)
    ensures d == Distance(left, right)
  {
    var previous: seq<nat> := seq(|right| + 1, j requires 0 <= j => j);
    FirstRow(left, right, previous);
    for i := 1 to |left| + 1
      invariant |previous| == |right| + 1 && IsRow(previous, left, right, i - 1)
    {
      var current: seq<nat> := [i];
      assert IsRow(current, left, right, i) by {
        assert right[..0] == [];
      }
      for j := 1 to |right| + 1
        invariant |current| == j && IsRow(current, left, right, i)
      {
        NextCellExtendsRow(previous, current, left, right, i);
        current := current + [NextCell(previous, current, left[i - 1], right[j - 1])];
      }
      previous := current;
    }
    assert left[..|left|] == left && right[..|right|] == right;
    d := previous[|right|];
  }

  lemma NormalizedAtTheEnds(left: string, right: string)
    ensures left == right ==> Normalized(left, right) == 0.0
    ensures left != right && (left == [] || right == []) ==> Normalized(left, right) == 1.0
  {
    if left == right {
      DistanceToSelf(left);
    } else if left == [] || right == [] {
      assert Distance(left, right) == MaxLength(left, right) > 0;
      WholeRatio(MaxLength(left, right));
    }
  }

  lemma WholeRatio(n: nat)
    requires 0 < n
    ensures n as real / n as real == 1.0
  {
  }

  method NormalizedEditDistance(left: string, right: string) returns (r: real)
    ensures r == Normalized(left, right)
  {
    NormalizedAtTheEnds(left, right);
    if left == right {
      return 0.0;
    }
    if left == [] || right == [] {
      return 1.0;
    }
    var d := LastCell(left, right);
    r := d as real / MaxLength(left, right) as real;
  }
}

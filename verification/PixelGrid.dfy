/** Pixels, their 4-neighbourhood, and reachability inside a set of pixels. */
module PixelGrid {
  datatype Pixel = Pixel(x: nat, y: nat)

  predicate InBounds(p: Pixel, width: nat, height: nat) {
    p.x < width && p.y < height
  }

  predicate Adjacent(p: Pixel, q: Pixel) {
    || (p.y == q.y && (p.x == q.x + 1 || q.x == p.x + 1))
    || (p.x == q.x && (p.y == q.y + 1 || q.y == p.y + 1))
  }

  /** Left, right, up, down, in that order, as far as they exist. */
  function Neighbors(p: Pixel, width: nat, height: nat): seq<Pixel> {
    (if p.x > 0 then [Pixel(p.x - 1, p.y)] else [])
    + (if p.x + 1 < width then [Pixel(p.x + 1, p.y)] else [])
    + (if p.y > 0 then [Pixel(p.x, p.y - 1)] else [])
    + (if p.y + 1 < height then [Pixel(p.x, p.y + 1)] else [])
  }

  lemma NeighborsAreAdjacent(p: Pixel, q: Pixel, width: nat, height: nat)
    requires InBounds(p, width, height)
    ensures q in Neighbors(p, width, height) <==> InBounds(q, width, height) && Adjacent(p, q)
  {
    var left := if p.x > 0 then [Pixel(p.x - 1, p.y)] else [];
    var right := if p.x + 1 < width then [Pixel(p.x + 1, p.y)] else [];
    var up := if p.y > 0 then [Pixel(p.x, p.y - 1)] else [];
    var down := if p.y + 1 < height then [Pixel(p.x, p.y + 1)] else [];
    assert Neighbors(p, width, height) == left + right + up + down;
    assert q in left + right + up + down <==> q in left || q in right || q in up || q in down;
  }

  ghost predicate AreNeighbors(around: seq<Pixel>, p: Pixel, width: nat, height: nat) {
    forall q :: q in around <==> InBounds(q, width, height) && Adjacent(p, q)
  }

  lemma {:induction false} AllNeighbors(p: Pixel, width: nat, height: nat)
    requires InBounds(p, width, height)
    ensures AreNeighbors(Neighbors(p, width, height), p, width, height)
  {
    forall q
      ensures q in Neighbors(p, width, height) <==> InBounds(q, width, height) && Adjacent(p, q)
    {
      NeighborsAreAdjacent(p, q, width, height);
    }
  }

  /** Row-major order. */
  predicate Before(p: Pixel, q: Pixel) {
    p.y < q.y || (p.y == q.y && p.x < q.x)
  }

  // ---------- 4-connected paths ----------

  ghost predicate IsPath(s: set<Pixel>, path: seq<Pixel>) {
    && path != []
    && (forall i :: 0 <= i < |path| ==> path[i] in s)
    && (forall i :: 0 < i < |path| ==> Adjacent(path[i - 1], path[i]))
  }

  ghost predicate IsPathBetween(s: set<Pixel>, path: seq<Pixel>, p: Pixel, q: Pixel) {
    IsPath(s, path) && path[0] == p && path[|path| - 1] == q
  }

  ghost predicate Joined(s: set<Pixel>, p: Pixel, q: Pixel) {
    exists path :: IsPathBetween(s, path, p, q)
  }

  ghost predicate ClosedIn(k: set<Pixel>, s: set<Pixel>) {
    forall p, q :: p in k && q in s && Adjacent(p, q) ==> q in k
  }

  /** The 4-connected component of `p` in `s`. */
  ghost function Component(s: set<Pixel>, p: Pixel): set<Pixel> {
    set q | q in s && Joined(s, p, q)
  }

  lemma JoinedToSelf(s: set<Pixel>, p: Pixel)
    requires p in s
    ensures Joined(s, p, p)
  {
    assert IsPathBetween(s, [p], p, p);
  }

  lemma JoinedStep(s: set<Pixel>, p: Pixel, q: Pixel, r: Pixel)
    requires Joined(s, p, q) && Adjacent(q, r) && r in s
    ensures Joined(s, p, r)
  {
    var path :| IsPathBetween(s, path, p, q);
    assert IsPathBetween(s, path + [r], p, r);
  }

  lemma {:induction false} JoinedSymmetric(s: set<Pixel>, p: Pixel, q: Pixel)
    requires Joined(s, p, q)
    ensures Joined(s, q, p)
  {
    var path :| IsPathBetween(s, path, p, q);
    var n := |path|;
    var back := seq(n, i requires 0 <= i < n => path[n - 1 - i]);
    assert IsPathBetween(s, back, q, p);
  }

  lemma JoinedTransitive(s: set<Pixel>, p: Pixel, q: Pixel, r: Pixel)
    requires Joined(s, p, q) && Joined(s, q, r)
    ensures Joined(s, p, r)
  {
    var first :| IsPathBetween(s, first, p, q);
    var second :| IsPathBetween(s, second, q, r);
    var whole := first + second[1..];
    assert forall i :: |first| <= i < |whole| ==> whole[i] == second[i - |first| + 1];
    assert IsPathBetween(s, whole, p, r);
  }

  /** A path that starts inside a closed set never leaves it. */
  lemma {:induction false} PathStaysInClosed(k: set<Pixel>, s: set<Pixel>, path: seq<Pixel>, n: nat)
    requires ClosedIn(k, s) && IsPath(s, path) && path[0] in k && n < |path|
    ensures path[n] in k
  {
    if n > 0 {
      PathStaysInClosed(k, s, path, n - 1);
    }
  }

  lemma JoinedStaysInClosed(k: set<Pixel>, s: set<Pixel>, p: Pixel, q: Pixel)
    requires ClosedIn(k, s) && p in k && Joined(s, p, q)
    ensures q in k
  {
    var path :| IsPathBetween(s, path, p, q);
    PathStaysInClosed(k, s, path, |path| - 1);
  }

  lemma ComponentIsClosed(s: set<Pixel>, p: Pixel)
    ensures ClosedIn(Component(s, p), s)
  {
    forall q, r | q in Component(s, p) && r in s && Adjacent(q, r)
      ensures r in Component(s, p)
    {
      JoinedStep(s, p, q, r);
    }
  }

  lemma SameComponent(s: set<Pixel>, p: Pixel, q: Pixel)
    requires q in Component(s, p)
    ensures Component(s, q) == Component(s, p)
  {
    JoinedSymmetric(s, p, q);
    forall r | r in s
      ensures r in Component(s, q) <==> r in Component(s, p)
    {
      if Joined(s, q, r) {
        JoinedTransitive(s, p, q, r);
      }
      if Joined(s, p, r) {
        JoinedTransitive(s, q, p, r);
      }
    }
  }

  /** A component, taken on its own, is still one component. */
  lemma ComponentOfComponent(s: set<Pixel>, p: Pixel, q: Pixel)
    requires p in s && q in Component(s, p)
    ensures Component(Component(s, p), q) == Component(s, p)
  {
    var k := Component(s, p);
    forall r | r in k
      ensures Joined(k, p, r)
    {
      JoinedInside(s, p, r);
    }
    JoinedSymmetric(k, p, q);
    forall r | r in k
      ensures Joined(k, q, r)
    {
      JoinedTransitive(k, q, p, r);
    }
  }

  lemma JoinedInside(s: set<Pixel>, p: Pixel, r: Pixel)
    requires p in s && r in Component(s, p)
    ensures Joined(Component(s, p), p, r)
  {
    var k := Component(s, p);
    JoinedToSelf(s, p);
    ComponentIsClosed(s, p);
    var path :| IsPathBetween(s, path, p, r);
    forall i | 0 <= i < |path|
      ensures path[i] in k
    {
      PathStaysInClosed(k, s, path, i);
    }
    assert IsPathBetween(k, path, p, r);
  }

  // ---------- arrays as sets and maps of pixels ----------

  /** The pixels at which a row-major array of flags is set. */
  ghost function Marked(flags: array2<bool>): (s: set<Pixel>)
    reads flags
    ensures forall p :: p in s <==> InBounds(p, flags.Length1, flags.Length0) && flags[p.y, p.x]
  {
    set x: nat, y: nat | x < flags.Length1 && y < flags.Length0 && flags[y, x] :: Pixel(x, y)
  }

  ghost function Pixels<T>(a: array2<T>): (m: map<Pixel, T>)
    reads a
    ensures forall p :: p in m <==> InBounds(p, a.Length1, a.Length0)
    ensures forall p :: p in m && InBounds(p, a.Length1, a.Length0) ==> m[p] == a[p.y, p.x]
  {
    map x: nat, y: nat | x < a.Length1 && y < a.Length0 :: Pixel(x, y) := a[y, x]
  }

  // ---------- sequences without repetition ----------

  ghost predicate Distinct(s: seq<Pixel>) {
    forall i, j :: 0 <= i < j < |s| ==> s[i] != s[j]
  }

  ghost function Elements(s: seq<Pixel>): set<Pixel> {
    set p | p in s
  }

  lemma {:induction false} DistinctCount(s: seq<Pixel>)
    requires Distinct(s)
    ensures |Elements(s)| == |s|
  {
    if s != [] {
      var front, last := s[..|s| - 1], s[|s| - 1];
      assert s == front + [last];
      DistinctCount(front);
      assert last !in front;
      assert Elements(s) == Elements(front) + {last};
    }
  }
}

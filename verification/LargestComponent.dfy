/** The scan that keeps the largest 4-connected foreground component of a sprite. */
module LargestComponent {
  import opened Wrappers
  import opened PixelGrid
  import opened AvatarImages

  // ---------- what the operation means ----------

  ghost function Foreground(image: Image): set<Pixel> {
    set p | p in image && image[p].a > 0
  }

  ghost function KeepOnly(image: Image, kept: set<Pixel>): Image {
    map p | p in image :: if p in kept then image[p] else Cleared(image[p])
  }

  /** `kept` is the component of `seed`; none is larger, and none as large holds an earlier pixel. */
  ghost predicate IsFirstLargest(s: set<Pixel>, kept: set<Pixel>, seed: Pixel) {
    && seed in s
    && kept == Component(s, seed)
    && forall t :: t in s ==>
         |Component(s, t)| <= |kept| && (|Component(s, t)| == |kept| ==> !Before(t, seed))
  }

  ghost predicate FirstLargest(s: set<Pixel>, kept: set<Pixel>) {
    exists seed :: IsFirstLargest(s, kept, seed)
  }

  lemma {:induction false} FirstLargestUnique(s: set<Pixel>, kept: set<Pixel>, kept': set<Pixel>)
    requires FirstLargest(s, kept) && FirstLargest(s, kept')
    ensures kept == kept'
  {
    var seed :| IsFirstLargest(s, kept, seed);
    var seed' :| IsFirstLargest(s, kept', seed');
    assert |kept| == |kept'|;
    assert !Before(seed, seed') && !Before(seed', seed);
  }

  /** Keeping the largest component twice is keeping it once. */
  lemma {:induction false} KeepingTwiceIsKeepingOnce(image: Image, kept: set<Pixel>, kept': set<Pixel>)
    requires FirstLargest(Foreground(image), kept)
    requires FirstLargest(Foreground(KeepOnly(image, kept)), kept')
    ensures Foreground(KeepOnly(image, kept)) == kept
    ensures KeepOnly(KeepOnly(image, kept), kept') == KeepOnly(image, kept)
  {
    var s, once := Foreground(image), KeepOnly(image, kept);
    var seed :| IsFirstLargest(s, kept, seed);
    assert Foreground(once) == kept;
    var seed' :| IsFirstLargest(kept, kept', seed');
    ComponentOfComponent(s, seed, seed');
    assert kept' == kept;
  }

  // ---------- one breadth-first exploration ----------

  /** What holds while the component of `seed` is explored; `before` was visited earlier. */
  ghost predicate ExploreInvariant(s: set<Pixel>, before: set<Pixel>, seed: Pixel,
                                   visited: set<Pixel>, component: seq<Pixel>, queue: seq<Pixel>) {
    && Distinct(component + queue)
    && visited == before + Elements(component + queue)
    && (forall p :: p in component + queue ==> p in s && p !in before && Joined(s, seed, p))
    && seed in component + queue
  }

  ghost predicate ExpandedAll(s: set<Pixel>, visited: set<Pixel>, component: seq<Pixel>) {
    forall p, q :: p in component && q in s && Adjacent(p, q) ==> q in visited
  }

  /** Moving the head of the queue to the component changes none of the sets involved. */
  lemma HeadJoinsComponent(s: set<Pixel>, before: set<Pixel>, seed: Pixel,
                           visited: set<Pixel>, component: seq<Pixel>, queue: seq<Pixel>)
    requires ExploreInvariant(s, before, seed, visited, component, queue) && queue != []
    ensures ExploreInvariant(s, before, seed, visited, component + [queue[0]], queue[1..])
  {
    assert component + queue == component + [queue[0]] + queue[1..];
  }

  /** Visiting one unvisited neighbour of a pixel already in the component. */
  lemma NeighborJoinsQueue(s: set<Pixel>, before: set<Pixel>, seed: Pixel, visited: set<Pixel>,
                           component: seq<Pixel>, queue: seq<Pixel>, p: Pixel, q: Pixel)
    requires ExploreInvariant(s, before, seed, visited, component, queue)
    requires p in component && Adjacent(p, q) && q in s && q !in visited
    ensures ExploreInvariant(s, before, seed, visited + {q}, component, queue + [q])
  {
    var all := component + queue;
    assert component + (queue + [q]) == all + [q];
    assert p in all;
    JoinedStep(s, seed, p, q);
    assert forall r :: r in all + [q] <==> r in all || r == q;
    assert Elements(all + [q]) == Elements(all) + {q};
  }

  /** When the queue is empty the component is the whole component of the seed. */
  lemma ExploreEnds(s: set<Pixel>, before: set<Pixel>, seed: Pixel, visited: set<Pixel>, component: seq<Pixel>)
    requires ExploreInvariant(s, before, seed, visited, component, [])
    requires ExpandedAll(s, visited, component) && ClosedIn(before, s)
    ensures Elements(component) == Component(s, seed)
    ensures |component| == |Component(s, seed)|
    ensures visited == before + Component(s, seed)
  {
    assert component + [] == component;
    forall p, q | p in Elements(component) && q in s && Adjacent(p, q)
      ensures q in Elements(component)
    {
      assert q in before ==> p in before;
    }
    forall q | q in Component(s, seed)
      ensures q in component
    {
      JoinedStaysInClosed(Elements(component), s, seed, q);
    }
    DistinctCount(component);
  }

  method VisitNeighbors(mask: array2<bool>, visited: array2<bool>, p: Pixel, ghost before: set<Pixel>,
                        ghost seed: Pixel, ghost component: seq<Pixel>, queue: seq<Pixel>)
    returns (queue': seq<Pixel>)
    requires mask != visited && mask.Length0 == visited.Length0 && mask.Length1 == visited.Length1
    requires InBounds(p, mask.Length1, mask.Length0) && p in component
    requires ExploreInvariant(Marked(mask), before, seed, Marked(visited), component, queue)
    modifies visited
    ensures ExploreInvariant(Marked(mask), before, seed, Marked(visited), component, queue')
    ensures old(Marked(visited)) <= Marked(visited)
    ensures forall q :: q in Marked(mask) && Adjacent(p, q) ==> q in Marked(visited)
    ensures Marked(visited) == old(Marked(visited)) ==> queue' == queue
  {
    queue' := queue;
    var around := Neighbors(p, mask.Length1, mask.Length0);
    AllNeighbors(p, mask.Length1, mask.Length0);
    ghost var s, start, seen := Marked(mask), Marked(visited), Marked(visited);
    for i := 0 to |around|
      invariant Marked(mask) == s && Marked(visited) == seen && start <= seen
      invariant ExploreInvariant(s, before, seed, seen, component, queue')
      invariant forall q :: q in around[..i] && q in s ==> q in seen
      invariant seen == start ==> queue' == queue
    {
      assert around[i] in around && around[..i + 1] == around[..i] + [around[i]];
      queue', seen := VisitNeighbor(mask, visited, p, around[i], before, seed, component, queue');
    }
    assert around[..|around|] == around;
  }

  /** One turn of the neighbour loop. */
  method VisitNeighbor(mask: array2<bool>, visited: array2<bool>, p: Pixel, q: Pixel, ghost before: set<Pixel>,
                       ghost seed: Pixel, ghost component: seq<Pixel>, queue: seq<Pixel>)
    returns (queue': seq<Pixel>, ghost seen: set<Pixel>)
    requires mask != visited && mask.Length0 == visited.Length0 && mask.Length1 == visited.Length1
    requires InBounds(q, mask.Length1, mask.Length0) && p in component && Adjacent(p, q)
    requires ExploreInvariant(Marked(mask), before, seed, Marked(visited), component, queue)
    modifies visited
    ensures seen == Marked(visited) == old(Marked(visited)) + (if q in Marked(mask) then {q} else {})
    ensures ExploreInvariant(Marked(mask), before, seed, seen, component, queue')
    ensures seen == old(Marked(visited)) ==> queue' == queue
  {
    queue' := queue;
    if mask[q.y, q.x] && !visited[q.y, q.x] {
      NeighborJoinsQueue(Marked(mask), before, seed, Marked(visited), component, queue, p, q);
      Mark(visited, q);
      queue' := queue + [q];
    }
    seen := Marked(visited);
  }

  /** Breadth-first search from an unvisited foreground pixel. */
  method Explore(mask: array2<bool>, visited: array2<bool>, seed: Pixel) returns (component: seq<Pixel>)
    requires mask != visited && mask.Length0 == visited.Length0 && mask.Length1 == visited.Length1
    requires seed in Marked(mask) && seed !in Marked(visited)
    requires ClosedIn(Marked(visited), Marked(mask))
    modifies visited
    ensures IsComponentOf(Marked(mask), component, seed)
    ensures Marked(visited) == old(Marked(visited)) + Component(Marked(mask), seed)
  {
    ghost var s, before := Marked(mask), Marked(visited);
    component := [];
    var queue := [seed];
    JoinedToSelf(s, seed);
    Mark(visited, seed);
    assert component + queue == [seed];
    while queue != []
      invariant Marked(mask) == s
      invariant ExploreInvariant(s, before, seed, Marked(visited), component, queue)
      invariant ExpandedAll(s, Marked(visited), component)
      decreases s - Marked(visited), |queue|
    {
      var p := queue[0];
      HeadJoinsComponent(s, before, seed, Marked(visited), component, queue);
      assert p in component + queue;
      component := component + [p];
      queue := queue[1..];
      assert p in component;
      queue := VisitNeighbors(mask, visited, p, before, seed, component, queue);
    }
    ExploreEnds(s, before, seed, Marked(visited), component);
  }

  // ---------- the row-major scan ----------

  ghost function ComponentSizes(s: set<Pixel>): (sizes: map<Pixel, nat>)
    ensures sizes.Keys == s
    ensures forall t :: t in s ==> sizes[t] == |Component(s, t)|
  {
    map t | t in s :: |Component(s, t)|
  }

  /** No visited pixel lies in a larger component, nor in one as large that holds an earlier pixel. */
  ghost predicate IsBest(sizes: map<Pixel, nat>, visited: set<Pixel>, seed: Pixel) {
    && seed in visited && visited <= sizes.Keys
    && forall t :: t in visited ==>
         sizes[t] <= sizes[seed] && (sizes[t] == sizes[seed] ==> !Before(t, seed))
  }

  /** The component of `at` replaces the best one only if it is strictly larger. */
  lemma BestExtends(sizes: map<Pixel, nat>, visited: set<Pixel>, seed: Pixel, k: set<Pixel>, at: Pixel)
    requires visited != {} ==> Before(seed, at) && IsBest(sizes, visited, seed)
    requires at in k && k <= sizes.Keys
    requires forall t :: t in k ==> !Before(t, at) && sizes[t] == sizes[at]
    ensures visited == {} || sizes[at] > sizes[seed] ==> IsBest(sizes, visited + k, at)
    ensures visited != {} && sizes[at] <= sizes[seed] ==> IsBest(sizes, visited + k, seed)
  {
  }

  ghost predicate IsComponentOf(s: set<Pixel>, component: seq<Pixel>, seed: Pixel) {
    Elements(component) == Component(s, seed) && |component| == |Component(s, seed)|
  }

  /** Everything in `s` that comes before `at` has been visited, whole components at a time. */
  ghost predicate ScanCovers(s: set<Pixel>, visited: set<Pixel>, at: Pixel) {
    && visited <= s && ClosedIn(visited, s)
    && forall p :: p in s && Before(p, at) ==> p in visited
  }

  ghost predicate ScanKeeps(s: set<Pixel>, visited: set<Pixel>, largest: seq<Pixel>, seed: Pixel, at: Pixel) {
    if visited == {} then largest == []
    else Before(seed, at) && IsBest(ComponentSizes(s), visited, seed) && IsComponentOf(s, largest, seed)
  }

  ghost predicate ScanInvariant(s: set<Pixel>, visited: set<Pixel>, largest: seq<Pixel>, seed: Pixel, at: Pixel) {
    ScanCovers(s, visited, at) && ScanKeeps(s, visited, largest, seed, at)
  }

  /** The component of the next unvisited pixel is new as a whole, and that pixel is its first. */
  lemma NextComponentIsNew(s: set<Pixel>, visited: set<Pixel>, at: Pixel)
    requires ScanCovers(s, visited, at) && at in s && at !in visited
    ensures at in Component(s, at)
    ensures ScanCovers(s, visited + Component(s, at), Pixel(at.x + 1, at.y))
    ensures forall t :: t in Component(s, at) ==> !Before(t, at) && Component(s, t) == Component(s, at)
  {
    var k := Component(s, at);
    JoinedToSelf(s, at);
    ComponentIsClosed(s, at);
    forall t | t in k
      ensures t !in visited && Component(s, t) == k
    {
      SameComponent(s, at, t);
      if t in visited {
        JoinedSymmetric(s, at, t);
        JoinedStaysInClosed(visited, s, t, at);
      }
    }
  }

  lemma ScanKeepsBest(s: set<Pixel>, visited: set<Pixel>, largest: seq<Pixel>, seed: Pixel,
                      at: Pixel, component: seq<Pixel>, k: set<Pixel>)
    requires ScanKeeps(s, visited, largest, seed, at)
    requires visited <= s && at in k && k <= s && Elements(component) == k && IsComponentOf(s, component, at)
    requires forall t :: t in k ==> !Before(t, at) && Component(s, t) == Component(s, at)
    ensures ScanKeeps(s, visited + k,
                      if |component| > |largest| then component else largest,
                      if |component| > |largest| then at else seed, Pixel(at.x + 1, at.y))
  {
    BestExtends(ComponentSizes(s), visited, seed, k, at);
    assert at in Elements(component);
    assert component != [];
  }

  lemma ScanExtends(s: set<Pixel>, visited: set<Pixel>, largest: seq<Pixel>, seed: Pixel,
                    at: Pixel, component: seq<Pixel>)
    requires ScanInvariant(s, visited, largest, seed, at)
    requires at in s && at !in visited && IsComponentOf(s, component, at)
    ensures ScanInvariant(s, visited + Component(s, at),
                          if |component| > |largest| then component else largest,
                          if |component| > |largest| then at else seed, Pixel(at.x + 1, at.y))
  {
    NextComponentIsNew(s, visited, at);
    ScanKeepsBest(s, visited, largest, seed, at, component, Component(s, at));
  }

  lemma ScanSkips(s: set<Pixel>, visited: set<Pixel>, largest: seq<Pixel>, seed: Pixel, at: Pixel)
    requires ScanInvariant(s, visited, largest, seed, at)
    requires at !in s || at in visited
    ensures ScanInvariant(s, visited, largest, seed, Pixel(at.x + 1, at.y))
  {
  }

  lemma ScanNextRow(s: set<Pixel>, visited: set<Pixel>, largest: seq<Pixel>, seed: Pixel, width: nat, y: nat)
    requires ScanInvariant(s, visited, largest, seed, Pixel(width, y))
    requires forall p :: p in s ==> p.x < width
    ensures ScanInvariant(s, visited, largest, seed, Pixel(0, y + 1))
  {
  }

  lemma ScanEnds(s: set<Pixel>, visited: set<Pixel>, largest: seq<Pixel>, seed: Pixel, at: Pixel)
    requires ScanInvariant(s, visited, largest, seed, at)
    requires forall p :: p in s ==> Before(p, at)
    ensures largest == [] <==> s == {}
    ensures s != {} ==> FirstLargest(s, Elements(largest))
  {
    assert visited == s;
    if s != {} {
      JoinedToSelf(s, seed);
      assert seed in Elements(largest);
      assert IsFirstLargest(s, Elements(largest), seed);
    }
  }

  /** One turn of the scan. */
  method ScanPixel(mask: array2<bool>, visited: array2<bool>, at: Pixel, largest: seq<Pixel>, ghost seed: Pixel)
    returns (largest': seq<Pixel>, ghost seed': Pixel)
    requires mask != visited && mask.Length0 == visited.Length0 && mask.Length1 == visited.Length1
    requires InBounds(at, mask.Length1, mask.Length0)
    requires ScanInvariant(Marked(mask), Marked(visited), largest, seed, at)
    modifies visited
    ensures ScanInvariant(Marked(mask), Marked(visited), largest', seed', Pixel(at.x + 1, at.y))
  {
    largest', seed' := largest, seed;
    ghost var before := Marked(visited);
    if !mask[at.y, at.x] || visited[at.y, at.x] {
      ScanSkips(Marked(mask), before, largest, seed, at);
      return;
    }
    var component := Explore(mask, visited, at);
    ScanExtends(Marked(mask), before, largest, seed, at, component);
    if |component| > |largest| {
      largest', seed' := component, at;
    }
  }

  /** The pixels of the first largest component, or none when nothing is foreground. */
  method FindLargest(mask: array2<bool>) returns (largest: seq<Pixel>)
    ensures largest == [] <==> Marked(mask) == {}
    ensures largest != [] ==> FirstLargest(Marked(mask), Elements(largest))
  {
    var height, width := mask.Length0, mask.Length1;
    var visited := new bool[height, width]((y, x) => false);
    ghost var s, seed := Marked(mask), Pixel(0, 0);
    largest := [];
    assert Marked(visited) == {};
    for y := 0 to height
      invariant Marked(mask) == s
      invariant ScanInvariant(s, Marked(visited), largest, seed, Pixel(0, y))
    {
      for x := 0 to width
        invariant Marked(mask) == s
        invariant ScanInvariant(s, Marked(visited), largest, seed, Pixel(x, y))
      {
        largest, seed := ScanPixel(mask, visited, Pixel(x, y), largest, seed);
      }
      ScanNextRow(s, Marked(visited), largest, seed, width, y);
    }
    ScanEnds(s, Marked(visited), largest, seed, Pixel(0, height));
  }

  method KeepMask(largest: seq<Pixel>, width: nat, height: nat) returns (keep: array2<bool>)
    requires forall p :: p in largest ==> InBounds(p, width, height)
    ensures fresh(keep) && keep.Length0 == height && keep.Length1 == width
    ensures Marked(keep) == Elements(largest)
  {
    keep := new bool[height, width]((y, x) => false);
    for i := 0 to |largest|
      invariant Marked(keep) == Elements(largest[..i])
    {
      assert largest[..i + 1] == largest[..i] + [largest[i]];
      Mark(keep, largest[i]);
    }
    assert largest[..|largest|] == largest;
  }

  method ForegroundMask(image: array2<Rgba>) returns (mask: array2<bool>)
    ensures fresh(mask) && mask.Length0 == image.Length0 && mask.Length1 == image.Length1
    ensures Marked(mask) == Foreground(Pixels(image))
  {
    mask := new bool[image.Length0, image.Length1]((y, x) reads image
      requires 0 <= y < image.Length0 && 0 <= x < image.Length1 => image[y, x].a > 0);
  }

  method ClearOutside(image: array2<Rgba>, keep: array2<bool>) returns (rgba: array2<Rgba>)
    requires keep.Length0 == image.Length0 && keep.Length1 == image.Length1
    ensures fresh(rgba) && rgba.Length0 == image.Length0 && rgba.Length1 == image.Length1
    ensures Pixels(rgba) == KeepOnly(Pixels(image), Marked(keep))
  {
    rgba := ClearWhere(image, keep, false);
  }

  /** Keeps exactly one component of the foreground: the first of the largest ones. */
  method RetainLargestComponent(image: array2<Rgba>) returns (r: Result<array2<Rgba>, ImageError>)
    ensures Foreground(Pixels(image)) == {} ==> r == Failure(NoForeground)
    ensures Foreground(Pixels(image)) != {} ==>
              && r.Success?
              && fresh(r.value)
              && r.value.Length0 == image.Length0 && r.value.Length1 == image.Length1
              && exists kept ::
                   && FirstLargest(Foreground(Pixels(image)), kept)
                   && Pixels(r.value) == KeepOnly(Pixels(image), kept)
  {
    var mask := ForegroundMask(image);
    var largest := FindLargest(mask);
    if largest == [] {
      return Failure(NoForeground);
    }
    forall p | p in largest
      ensures InBounds(p, image.Length1, image.Length0)
    {
      assert p in Elements(largest) && p in Marked(mask);
    }
    var keep := KeepMask(largest, image.Length1, image.Length0);
    var rgba := ClearOutside(image, keep);
    r := Success(rgba);
  }
}

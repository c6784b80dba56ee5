/**
 Sprite pixels, and the border flood fill that clears the background.
 Arrays are row-major, `array[y, x]`.
 */
module AvatarImages {
  import opened Wrappers
  import opened PixelGrid

  type Channel = n: nat | n < 256

  datatype Rgba = Rgba(r: Channel, g: Channel, b: Channel, a: Channel)

  datatype ImageError = NegativeTolerance | EmptyAxis | NoForeground

  type Image = map<Pixel, Rgba>

  // ---------- what the two operations mean ----------

  function Max(a: int, b: int): int {
    if a >= b then a else b
  }

  function Min(a: int, b: int): int {
    if a <= b then a else b
  }

  /** Bright and nearly grey, within the tolerance. */
  predicate BackgroundCandidate(c: Rgba, tolerance: int) {
    var minimum := Min(c.r, Min(c.g, c.b));
    var chroma := Max(c.r, Max(c.g, c.b)) - minimum;
    minimum >= Max(150, 210 - tolerance * 2) && chroma <= 40 + tolerance * 2
  }

  predicate OnBorder(p: Pixel, width: nat, height: nat) {
    p.x == 0 || p.x + 1 == width || p.y == 0 || p.y + 1 == height
  }

  /** Some path of pixels of `s` leads from the border to `p`. */
  ghost predicate JoinedToBorder(s: set<Pixel>, width: nat, height: nat, p: Pixel) {
    exists q :: q in s && OnBorder(q, width, height) && Joined(s, q, p)
  }

  function Cleared(c: Rgba): Rgba {
    c.(a := 0)
  }

  ghost function Candidates(image: Image, tolerance: int): set<Pixel> {
    set p | p in image && BackgroundCandidate(image[p], tolerance)
  }

  ghost function WithoutBackground(image: Image, width: nat, height: nat, tolerance: int): Image {
    var s := Candidates(image, tolerance);
    map p | p in image :: if JoinedToBorder(s, width, height, p) then Cleared(image[p]) else image[p]
  }

  // ---------- border flood fill ----------

  /** What holds between two turns of the flood-fill loop. */
  ghost predicate FloodInvariant(s: set<Pixel>, width: nat, height: nat, done: set<Pixel>, queue: seq<Pixel>) {
    && done <= s
    && (forall p :: p in done ==> JoinedToBorder(s, width, height, p))
    && (forall p :: p in queue ==> InBounds(p, width, height))
    && (forall p :: p in queue && p in s ==> JoinedToBorder(s, width, height, p))
    && (forall p :: p in s && OnBorder(p, width, height) ==> p in done || p in queue)
    && (forall p, q :: p in done && q in s && Adjacent(p, q) ==> q in done || q in queue)
  }

  lemma {:induction false} FloodMarks(s: set<Pixel>, width: nat, height: nat, done: set<Pixel>, queue: seq<Pixel>,
                                      around: seq<Pixel>)
    requires FloodInvariant(s, width, height, done, queue)
    requires forall p :: p in s ==> InBounds(p, width, height)
    requires queue != [] && queue[0] in s && AreNeighbors(around, queue[0], width, height)
    ensures FloodInvariant(s, width, height, done + {queue[0]}, queue[1..] + around)
  {
    var p, queue' := queue[0], queue[1..] + around;
    forall q | q in around && q in s
      ensures JoinedToBorder(s, width, height, q)
    {
      var source :| source in s && OnBorder(source, width, height) && Joined(s, source, p);
      JoinedStep(s, source, p, q);
    }
    assert forall q :: q in queue' <==> q in queue[1..] || q in around;
    assert forall q :: q in queue <==> q == p || q in queue[1..];
  }

  lemma FloodSkips(s: set<Pixel>, width: nat, height: nat, done: set<Pixel>, queue: seq<Pixel>)
    requires FloodInvariant(s, width, height, done, queue)
    requires queue != [] && (queue[0] in done || queue[0] !in s)
    ensures FloodInvariant(s, width, height, done, queue[1..])
  {
    assert forall q :: q in queue ==> q == queue[0] || q in queue[1..];
  }

  lemma FloodEnds(s: set<Pixel>, width: nat, height: nat, done: set<Pixel>)
    requires FloodInvariant(s, width, height, done, [])
    ensures forall p :: p in done <==> JoinedToBorder(s, width, height, p)
  {
    forall p | JoinedToBorder(s, width, height, p)
      ensures p in done
    {
      var source :| source in s && OnBorder(source, width, height) && Joined(s, source, p);
      JoinedStaysInClosed(done, s, source, p);
    }
  }

  method BorderQueue(candidate: array2<bool>) returns (queue: seq<Pixel>)
    requires candidate.Length0 > 0 <==> candidate.Length1 > 0
    ensures forall p :: p in queue <==>
              p in Marked(candidate) && OnBorder(p, candidate.Length1, candidate.Length0)
  {
    var height, width := candidate.Length0, candidate.Length1;
    queue := [];
    for x := 0 to width
      invariant forall p :: p in queue <==>
        p in Marked(candidate) && p.x < x && (p.y == 0 || p.y + 1 == height)
    {
      if candidate[0, x] {
        queue := queue + [Pixel(x, 0)];
      }
      if candidate[height - 1, x] {
        queue := queue + [Pixel(x, height - 1)];
      }
    }
    for y := 0 to height
      invariant forall p :: p in queue <==>
        p in Marked(candidate)
        && (p.y == 0 || p.y + 1 == height || (p.y < y && (p.x == 0 || p.x + 1 == width)))
    {
      if candidate[y, 0] {
        queue := queue + [Pixel(0, y)];
      }
      if candidate[y, width - 1] {
        queue := queue + [Pixel(width - 1, y)];
      }
    }
  }

  method Mark(flags: array2<bool>, p: Pixel)
    requires InBounds(p, flags.Length1, flags.Length0)
    modifies flags
    ensures Marked(flags) == old(Marked(flags)) + {p}
  {
    flags[p.y, p.x] := true;
  }

  /** Marks exactly the candidates joined to the border, although pixels enter the queue repeatedly. */
  method FloodFromBorder(candidate: array2<bool>) returns (background: array2<bool>)
    requires candidate.Length0 > 0 <==> candidate.Length1 > 0
    ensures fresh(background)
    ensures background.Length0 == candidate.Length0 && background.Length1 == candidate.Length1
    ensures forall p :: p in Marked(background) <==>
              JoinedToBorder(Marked(candidate), candidate.Length1, candidate.Length0, p)
  {
    var height, width := candidate.Length0, candidate.Length1;
    ghost var s := Marked(candidate);
    background := new bool[height, width]((y, x) => false);
    var queue := BorderQueue(candidate);
    assert FloodInvariant(s, width, height, Marked(background), queue) by {
      forall p | p in queue
        ensures JoinedToBorder(s, width, height, p)
      {
        JoinedToSelf(s, p);
      }
    }
    while queue != []
      invariant Marked(candidate) == s
      invariant FloodInvariant(s, width, height, Marked(background), queue)
      decreases s - Marked(background), |queue|
    {
      var p := queue[0];
      assert InBounds(p, width, height);
      if background[p.y, p.x] || !candidate[p.y, p.x] {
        FloodSkips(s, width, height, Marked(background), queue);
        queue := queue[1..];
        continue;
      }
      AllNeighbors(p, width, height);
      FloodMarks(s, width, height, Marked(background), queue, Neighbors(p, width, height));
      Mark(background, p);
      queue := queue[1..] + Neighbors(p, width, height);
    }
    FloodEnds(s, width, height, Marked(background));
  }

  method CandidateMask(image: array2<Rgba>, tolerance: int) returns (candidate: array2<bool>)
    ensures fresh(candidate) && candidate.Length0 == image.Length0 && candidate.Length1 == image.Length1
    ensures Marked(candidate) == Candidates(Pixels(image), tolerance)
  {
    candidate := new bool[image.Length0, image.Length1]((y, x) reads image
      requires 0 <= y < image.Length0 && 0 <= x < image.Length1 => BackgroundCandidate(image[y, x], tolerance));
  }

  /** A copy of the image, transparent where the flag equals `value`. */
  method ClearWhere(image: array2<Rgba>, flags: array2<bool>, value: bool) returns (rgba: array2<Rgba>)
    requires flags.Length0 == image.Length0 && flags.Length1 == image.Length1
    ensures fresh(rgba) && rgba.Length0 == image.Length0 && rgba.Length1 == image.Length1
    ensures Pixels(rgba).Keys == Pixels(image).Keys
    ensures forall p :: p in Pixels(image) ==>
      Pixels(rgba)[p] == if (p in Marked(flags)) == value then Cleared(Pixels(image)[p]) else Pixels(image)[p]
  {
    rgba := new Rgba[image.Length0, image.Length1]((y, x) reads image, flags
      requires 0 <= y < image.Length0 && 0 <= x < image.Length1
      requires flags.Length0 == image.Length0 && flags.Length1 == image.Length1 =>
      if flags[y, x] == value then Cleared(image[y, x]) else image[y, x]);
  }

  /** Makes transparent exactly the candidate pixels joined to the border by candidate pixels. */
  method RemoveBorderBackground(image: array2<Rgba>, tolerance: int) returns (r: Result<array2<Rgba>, ImageError>)
    ensures tolerance < 0 ==> r == Failure(NegativeTolerance)
    ensures tolerance >= 0 && (image.Length0 == 0) != (image.Length1 == 0) ==> r == Failure(EmptyAxis)
    ensures tolerance >= 0 && (image.Length0 == 0) == (image.Length1 == 0) ==>
              && r.Success?
              && fresh(r.value)
              && r.value.Length0 == image.Length0 && r.value.Length1 == image.Length1
              && Pixels(r.value) == WithoutBackground(Pixels(image), image.Length1, image.Length0, tolerance)
  {
    if tolerance < 0 {
      return Failure(NegativeTolerance);
    }
    var height, width := image.Length0, image.Length1;
    if (height == 0) != (width == 0) {
      return Failure(EmptyAxis);
    }
    var candidate := CandidateMask(image, tolerance);
    var background := FloodFromBorder(candidate);
    var rgba := ClearWhere(image, background, true);
    r := Success(rgba);
  }
}

/** What the two sprite operations do to each pixel, and how they compare across tolerances and repetitions. */
module ImageMeaning {
  import opened PixelGrid
  import opened AvatarImages
  import opened LargestComponent

  // ---------- which pixels count ----------

  /** Background is bright in every channel and nearly grey: no channel is dark, and no two are far apart. */
  lemma CandidateIff(c: Rgba, tolerance: int)
    ensures BackgroundCandidate(c, tolerance)
            <==> && c.r >= 150 && c.g >= 150 && c.b >= 150
                 && c.r >= 210 - 2 * tolerance && c.g >= 210 - 2 * tolerance && c.b >= 210 - 2 * tolerance
                 && -40 - 2 * tolerance <= c.r - c.g <= 40 + 2 * tolerance
                 && -40 - 2 * tolerance <= c.g - c.b <= 40 + 2 * tolerance
                 && -40 - 2 * tolerance <= c.b - c.r <= 40 + 2 * tolerance
  {
  }

  /** The border is where a pixel has fewer than four neighbours. */
  lemma BorderIff(p: Pixel, width: nat, height: nat)
    requires InBounds(p, width, height)
    ensures OnBorder(p, width, height) <==> |Neighbors(p, width, height)| < 4
  {
  }

  /** Foreground is whatever is not wholly transparent. */
  lemma ForegroundIff(image: Image, p: Pixel)
    ensures p in Foreground(image) <==> p in image && image[p].a != 0
  {
  }

  // ---------- background removal ----------

  /** Holds the border pixels of `s`, and with a pixel all its neighbours in `s`. */
  ghost predicate FloodClosed(t: set<Pixel>, s: set<Pixel>, width: nat, height: nat) {
    && (forall p :: p in s && OnBorder(p, width, height) ==> p in t)
    && (forall p, q :: p in t && q in s && Adjacent(p, q) ==> q in t)
  }

  /** The pixels joined to the border are the least set that a flood from the border fills. */
  lemma FloodedIsLeast(s: set<Pixel>, width: nat, height: nat)
    ensures var flooded := set p | p in s && JoinedToBorder(s, width, height, p);
            && FloodClosed(flooded, s, width, height)
            && forall t :: FloodClosed(t, s, width, height) ==> flooded <= t
  {
    var flooded := set p | p in s && JoinedToBorder(s, width, height, p);
    forall p | p in s && OnBorder(p, width, height)
      ensures p in flooded
    {
      JoinedToSelf(s, p);
    }
    forall p, q | p in flooded && q in s && Adjacent(p, q)
      ensures q in flooded
    {
      var b :| b in s && OnBorder(b, width, height) && Joined(s, b, p);
      JoinedStep(s, b, p, q);
    }
    forall t | FloodClosed(t, s, width, height)
      ensures flooded <= t
    {
      forall p | p in flooded
        ensures p in t
      {
        var b :| b in s && OnBorder(b, width, height) && Joined(s, b, p);
        var path :| IsPathBetween(s, path, b, p);
        PathStaysIn(t, s, path, |path| - 1);
      }
    }
  }

  lemma {:induction false} PathStaysIn(t: set<Pixel>, s: set<Pixel>, path: seq<Pixel>, i: nat)
    requires IsPath(s, path) && i < |path| && path[0] in t
    requires forall p, q :: p in t && q in s && Adjacent(p, q) ==> q in t
    ensures path[i] in t
  {
    if i > 0 {
      PathStaysIn(t, s, path, i - 1);
    }
  }

  /** Colours stay, and alpha becomes zero exactly at the candidates that the flood reaches. */
  lemma BackgroundIsCleared(image: Image, width: nat, height: nat, tolerance: int, p: Pixel)
    requires p in image
    ensures var result := WithoutBackground(image, width, height, tolerance);
            && result.Keys == image.Keys
            && result[p].r == image[p].r && result[p].g == image[p].g && result[p].b == image[p].b
            && result[p].a == if JoinedToBorder(Candidates(image, tolerance), width, height, p) then 0 else image[p].a
  {
  }

  lemma JoinedInMore(s: set<Pixel>, t: set<Pixel>, width: nat, height: nat, p: Pixel)
    requires s <= t && JoinedToBorder(s, width, height, p)
    ensures JoinedToBorder(t, width, height, p)
  {
    var b :| b in s && OnBorder(b, width, height) && Joined(s, b, p);
    var path :| IsPathBetween(s, path, b, p);
    assert IsPathBetween(t, path, b, p);
  }

  /** A larger tolerance clears at least the same pixels. */
  lemma ToleranceClearsMore(image: Image, width: nat, height: nat, tolerance: int, larger: int, p: Pixel)
    requires tolerance <= larger && p in image
    ensures WithoutBackground(image, width, height, tolerance)[p].a == 0 ==>
              WithoutBackground(image, width, height, larger)[p].a == 0
  {
    var s, t := Candidates(image, tolerance), Candidates(image, larger);
    if JoinedToBorder(s, width, height, p) {
      JoinedInMore(s, t, width, height, p);
    }
  }

  /** Removing the background twice is removing it once: what is cleared was not judged by its alpha. */
  lemma RemovingTwiceIsRemovingOnce(image: Image, width: nat, height: nat, tolerance: int)
    ensures var once := WithoutBackground(image, width, height, tolerance);
            WithoutBackground(once, width, height, tolerance) == once
  {
    var once := WithoutBackground(image, width, height, tolerance);
    forall p | p in image
      ensures BackgroundCandidate(once[p], tolerance) <==> BackgroundCandidate(image[p], tolerance)
    {
    }
    assert Candidates(once, tolerance) == Candidates(image, tolerance);
  }

  // ---------- the largest component ----------

  /** Colours stay, and every pixel outside the kept set becomes transparent. */
  lemma OnlyKeptIsShown(image: Image, kept: set<Pixel>, p: Pixel)
    requires p in image
    ensures var result := KeepOnly(image, kept);
            && result.Keys == image.Keys
            && result[p].r == image[p].r && result[p].g == image[p].g && result[p].b == image[p].b
            && result[p].a == if p in kept then image[p].a else 0
  {
  }
}

/** When a guarded rewrite moves text from one of the two rows to the other. */
module TextMoves {
  import opened EditDistance
  import opened EditMoves
  import opened TextGuard

  // ---------- cutting the joined text at another place ----------

  /** The rows may be cut between two characters, or at one character that the cut takes away. */
  predicate IsCut(text: string, i: nat, j: nat) {
    i <= j <= i + 1 && j <= |text|
  }

  /** The text up to the cut is the first row, and the text from it on is the second. */
  function CutAt(text: string, i: nat, j: nat): Revision
    requires IsCut(text, i, j)
  {
    Revision(text[..i], text[j..], true)
  }

  /** Some text of the first sentence comes to stand in the second row, or the other way round. */
  predicate MovesText(previousText: string, i: nat, j: nat) {
    j < |previousText| || |previousText| + 1 < i
  }

  /** The edits that a cut costs: none at a newline, otherwise one. */
  lemma CutCosts(text: string, i: nat, j: nat)
    requires IsCut(text, i, j)
    ensures var r := CutAt(text, i, j);
            && |Joined(r.previousText, r.currentText)| == |text| + 1 - (j - i)
            && Distance(text, Joined(r.previousText, r.currentText)) == if j > i && text[i] == '\n' then 0 else 1
  {
    var r := CutAt(text, i, j);
    var e := if j > i then Substitute(i, '\n') else Insert(i, '\n');
    assert Apply(e, text) == Joined(r.previousText, r.currentText);
    if j > i && text[i] == '\n' {
      assert Apply(e, text) == text;
      DistanceToSelf(text);
    } else {
      assert j > i ==> Apply(e, text)[i] != text[i];
      OneEditCostsOne(e, text);
    }
  }

  /** A cut fits the allowance: at a newline always, at another character or between two with one edit. */
  predicate CutAllowed(text: string, i: nat, j: nat, ratio: real)
    requires IsCut(text, i, j)
  {
    || (j > i && (text[i] == '\n' || 1 <= Allowance(|text|, ratio)))
    || (j == i && 1 <= Allowance(|text| + 1, ratio))
  }

  lemma CutFitsIff(p: string, c: string, i: nat, j: nat, ratio: real)
    requires 0.0 <= ratio && IsCut(Joined(p, c), i, j)
    ensures FewEdits(p, c, CutAt(Joined(p, c), i, j), ratio) <==> CutAllowed(Joined(p, c), i, j, ratio)
  {
    CutCosts(Joined(p, c), i, j);
    AllowanceIsNatural(|Joined(p, c)|, ratio);
  }

  /** For every place, the guard accepts the rows cut there exactly when the cut is allowed and no token is lost. */
  lemma CutAcceptedIff(provider: LlamaCppTextProvider, p: string, c: string, i: nat, j: nat)
    requires 0.0 <= provider.maxEditRatio && IsCut(Joined(p, c), i, j)
    ensures var text, r := Joined(p, c), CutAt(Joined(p, c), i, j);
            provider.Guarded(p, c, r)
            <==> && CutAllowed(text, i, j, provider.maxEditRatio)
                 && provider.KeepsTokens(text, Joined(r.previousText, r.currentText))
  {
    CutFitsIff(p, c, i, j, provider.maxEditRatio);
  }

  // ---------- what the source sentences decide ----------

  /** A newline in the first sentence with text after it, or in the second with text before it. */
  predicate NewlineInside(p: string, c: string) {
    || (exists i :: 0 <= i < |p| - 1 && p[i] == '\n')
    || (exists i :: 0 < i < |c| && c[i] == '\n')
  }

  /** Some cut that moves text stays within the edits allowed. */
  ghost predicate SomeTextMoves(p: string, c: string, ratio: real) {
    exists i, j :: IsCut(Joined(p, c), i, j) && MovesText(p, i, j) && FewEdits(p, c, CutAt(Joined(p, c), i, j), ratio)
  }

  /**
   Text can move between the rows exactly when a sentence holds a newline with text beyond it, or
   there is any text at all and the ratio allows one edit in the joined text and one more character.
   */
  lemma SomeTextMovesIff(p: string, c: string, ratio: real)
    requires 0.0 <= ratio
    ensures SomeTextMoves(p, c, ratio)
            <==> || NewlineInside(p, c)
                 || (p + c != "" && 1 <= Allowance(|p| + |c| + 2, ratio))
  {
    var text := Joined(p, c);
    if SomeTextMoves(p, c, ratio) {
      var i: nat, j: nat :| IsCut(text, i, j) && MovesText(p, i, j) && FewEdits(p, c, CutAt(text, i, j), ratio);
      CutFitsIff(p, c, i, j, ratio);
      AllowanceGrows(|text|, |text| + 1, ratio);
      if j > i && text[i] == '\n' {
        assert if i < |p| then p[i] == '\n' else c[i - |p| - 1] == '\n';
      }
    }
    if NewlineInside(p, c) {
      NewlineMoves(p, c, ratio);
    }
    if p + c != "" && 1 <= Allowance(|p| + |c| + 2, ratio) {
      OneEditMoves(p, c, ratio);
    }
  }

  lemma NewlineMoves(p: string, c: string, ratio: real)
    requires 0.0 <= ratio && NewlineInside(p, c)
    ensures SomeTextMoves(p, c, ratio)
  {
    var text := Joined(p, c);
    if i :| 0 <= i < |p| - 1 && p[i] == '\n' {
      assert text[i] == '\n';
      CutFitsIff(p, c, i, i + 1, ratio);
      assert MovesText(p, i, i + 1);
    } else {
      var i :| 0 < i < |c| && c[i] == '\n';
      var k := |p| + 1 + i;
      assert text[k] == '\n';
      CutFitsIff(p, c, k, k + 1, ratio);
      assert MovesText(p, k, k + 1);
    }
  }

  /** With one edit a whole sentence moves: a newline before the first, or one after the second. */
  lemma OneEditMoves(p: string, c: string, ratio: real)
    requires 0.0 <= ratio && p + c != "" && 1 <= Allowance(|p| + |c| + 2, ratio)
    ensures SomeTextMoves(p, c, ratio)
  {
    var text := Joined(p, c);
    var k := if p != "" then 0 else |text|;
    CutFitsIff(p, c, k, k, ratio);
    assert MovesText(p, k, k);
  }

  /**
   Whatever the reply, the joined text stays the same within the ratio exactly when not one edit is
   allowed in the joined text and one more character.
   */
  lemma JoinedTextIsSafeIff(p: string, c: string, ratio: real)
    requires 0.0 <= ratio
    ensures (forall p', c', changed ::
               FewEdits(p, c, Revision(p', c', changed), ratio) ==> Joined(p', c') == Joined(p, c))
            <==> Allowance(|p| + |c| + 2, ratio) < 1
  {
    var text := Joined(p, c);
    if Allowance(|p| + |c| + 2, ratio) >= 1 {
      CutFitsIff(p, c, 0, 0, ratio);
      assert CutAt(text, 0, 0) == Revision("", text, true);
      assert FewEdits(p, c, Revision("", text, true), ratio);
      assert |Joined("", text)| > |text|;
    } else {
      forall p', c', changed | FewEdits(p, c, Revision(p', c', changed), ratio)
        ensures Joined(p', c') == text
      {
        var revised := Joined(p', c');
        DistanceCoversLengths(text, revised);
        NoGrowthAllowed(|text|, |revised|, Distance(text, revised), ratio);
        DistanceZeroIffEqual(text, revised);
      }
    }
  }

  /**
   The ratio leaves the rows alone, whatever the reply, exactly when no sentence holds a newline and
   not one edit is allowed in the joined text and one more character.
   */
  lemma RowsAreSafeIff(p: string, c: string, ratio: real)
    requires 0.0 <= ratio
    ensures (forall p', c', changed :: FewEdits(p, c, Revision(p', c', changed), ratio) ==> p' == p && c' == c)
            <==> '\n' !in p && '\n' !in c && Allowance(|p| + |c| + 2, ratio) < 1
  {
    JoinedTextIsSafeIff(p, c, ratio);
    if Allowance(|p| + |c| + 2, ratio) < 1 {
      if '\n' in p || '\n' in c {
        TextMovesFreelyIff(p, c);
        var p', c' :| Moved(p, c, p', c');
        SameTextIsFew(p, c, p', c', ratio);
        assert FewEdits(p, c, Revision(p', c', true), ratio);
      } else {
        forall p', c', changed | FewEdits(p, c, Revision(p', c', changed), ratio)
          ensures p' == p && c' == c
        {
          OnlyOneNewline(p, c, p', c');
        }
      }
    }
  }

  lemma SameTextIsFew(p: string, c: string, p': string, c': string, ratio: real)
    requires 0.0 <= ratio && Joined(p', c') == Joined(p, c)
    ensures forall changed :: FewEdits(p, c, Revision(p', c', changed), ratio)
  {
    DistanceToSelf(Joined(p, c));
    AllowanceIsNatural(|Joined(p, c)|, ratio);
  }

  // ---------- moving the newline itself ----------

  /**
   The text `v` moves to the other row as it is, without a blank to give up, in either direction: the
   newline moves over it, which takes two edits.
   */
  lemma NewlineMovesIff(provider: LlamaCppTextProvider, u: string, v: string, w: string, k: nat)
    requires k < |v| && v[k] != '\n'
    ensures var first, second := Joined(u + v, w), Joined(u, v + w);
            var roomForTwo := 2 <= Allowance(|u| + |v| + |w| + 1, provider.maxEditRatio);
            && (provider.Guarded(u + v, w, Revision(u, v + w, true))
                <==> roomForTwo && provider.KeepsTokens(first, second))
            && (provider.Guarded(u, v + w, Revision(u + v, w, true))
                <==> roomForTwo && provider.KeepsTokens(second, first))
  {
    var first, second := Joined(u + v, w), Joined(u, v + w);
    assert first == u + v + ['\n'] + w && second == u + ['\n'] + v + w;
    MovingCostsTwo(u, v, '\n', w, k);
    DistanceSymmetric(first, second);
  }

  // ---------- the default ratio ----------

  /** At the default ratio every pair with any text at all has room for the one edit. */
  lemma DefaultRatioAllowsOneEdit(p: string, c: string)
    ensures 1 <= Allowance(|p| + |c| + 2, DEFAULT_RATIO) <==> p + c != ""
  {
    var n := |p| + |c| + 2;
    assert DEFAULT_RATIO * n as real >= 1.0 <==> n >= 3;
  }
}

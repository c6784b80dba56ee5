/**
 The guard that decides whether a language model's rewrite may replace the
 recognised text: every protected token survives, and the rewrite is within
 `maxEditRatio` of the source. Token extraction is a parameter.
 */
module TextGuard {
  import opened Wrappers
  import opened EditDistance

  datatype Revision = Revision(previousText: string, currentText: string, changed: bool)

  /** What the text worker sent back; only a transport failure reaches the caller. */
  datatype Reply = Unavailable | Malformed | Parsed(result: Revision)

  datatype TextError = TextWorkerUnavailable

  function Joined(previousText: string, currentText: string): string {
    previousText + "\n" + currentText
  }

  /** How often `token` stands in the list. */
  function Occurrences(tokens: seq<string>, token: string): nat {
    if tokens == [] then 0
    else (if tokens[0] == token then 1 else 0) + Occurrences(tokens[1..], token)
  }

  lemma {:induction false} OccurrencesCount(tokens: seq<string>, token: string)
    ensures Occurrences(tokens, token) == multiset(tokens)[token]
  {
    if tokens != [] {
      OccurrencesCount(tokens[1..], token);
      assert tokens == [tokens[0]] + tokens[1..];
    }
  }

  lemma NoneLostIff(before: seq<string>, after: seq<string>)
    ensures multiset(before) <= multiset(after)
            <==> forall token :: Occurrences(before, token) <= Occurrences(after, token)
  {
    var a, b := multiset(before), multiset(after);
    if forall token :: Occurrences(before, token) <= Occurrences(after, token) {
      forall token
        ensures a[token] <= b[token]
      {
        OccurrencesCount(before, token);
        OccurrencesCount(after, token);
        assert Occurrences(before, token) <= Occurrences(after, token);
      }
    } else {
      var token :| Occurrences(before, token) > Occurrences(after, token);
      OccurrencesCount(before, token);
      OccurrencesCount(after, token);
      assert a[token] > b[token];
    }
  }

  /** The rewrite stays within the edits that `ratio` allows. */
  predicate FewEdits(previousText: string, currentText: string, result: Revision, ratio: real) {
    var source, revised := Joined(previousText, currentText), Joined(result.previousText, result.currentText);
    Distance(source, revised) <= Allowance(MaxLength(source, revised), ratio)
  }

  class LlamaCppTextProvider {
    const maxEditRatio: real
    const protectedTokens: string -> seq<string>

    constructor (ratio: real, tokens: string -> seq<string>)
      ensures maxEditRatio == ratio && protectedTokens == tokens
    {
      maxEditRatio := ratio;
      protectedTokens := tokens;
    }

    /** Every protected token of the source text is kept, as often as it occurs. */
    ghost predicate KeepsTokens(source: string, revised: string) {
      multiset(protectedTokens(source)) <= multiset(protectedTokens(revised))
    }

    /** The guard as a property: no protected token is lost, and few edits are made. */
    ghost predicate Guarded(previousText: string, currentText: string, result: Revision) {
      && KeepsTokens(Joined(previousText, currentText), Joined(result.previousText, result.currentText))
      && FewEdits(previousText, currentText, result, maxEditRatio)
    }

    /** The guard, token by token. */
    lemma GuardedCountsTokens(previousText: string, currentText: string, result: Revision)
      ensures var source, revised := Joined(previousText, currentText), Joined(result.previousText, result.currentText);
              Guarded(previousText, currentText, result)
              <==> && (forall token :: Occurrences(protectedTokens(source), token)
                                       <= Occurrences(protectedTokens(revised), token))
                   && Distance(source, revised) <= Allowance(MaxLength(source, revised), maxEditRatio)
    {
      var source, revised := Joined(previousText, currentText), Joined(result.previousText, result.currentText);
      NoneLostIff(protectedTokens(source), protectedTokens(revised));
    }

    /** A reply whose tokens are the source's without one of them is refused, however few edits it makes. */
    lemma LostTokenIsRefused(previousText: string, currentText: string, result: Revision, i: nat)
      requires var tokens := protectedTokens(Joined(previousText, currentText));
               i < |tokens|
               && protectedTokens(Joined(result.previousText, result.currentText)) == tokens[..i] + tokens[i + 1..]
      ensures !Guarded(previousText, currentText, result)
    {
      var tokens := protectedTokens(Joined(previousText, currentText));
      GuardedCountsTokens(previousText, currentText, result);
      assert tokens == tokens[..i] + [tokens[i]] + tokens[i + 1..];
      OccurrencesCount(tokens, tokens[i]);
      OccurrencesCount(tokens[..i] + tokens[i + 1..], tokens[i]);
    }

    /** Accepts exactly when no token occurs less often in the reply than in the source, and few edits are made. */
    method SafeRevision(previousText: string, currentText: string, result: Revision) returns (safe: bool)
      ensures safe <==> Guarded(previousText, currentText, result)
      ensures var source, revised := Joined(previousText, currentText), Joined(result.previousText, result.currentText);
              safe <==> && (forall token :: Occurrences(protectedTokens(source), token)
                                            <= Occurrences(protectedTokens(revised), token))
                        && Distance(source, revised) <= Allowance(MaxLength(source, revised), maxEditRatio)
    {
      GuardedCountsTokens(previousText, currentText, result);
      var source := Joined(previousText, currentText);
      var revised := Joined(result.previousText, result.currentText);
      var sourceTokens := multiset(protectedTokens(source));
      var revisedTokens := multiset(protectedTokens(revised));
      if exists token :: token in sourceTokens && revisedTokens[token] < sourceTokens[token] {
        return false;
      }
      var distance := NormalizedEditDistance(source, revised);
      safe := distance <= maxEditRatio;
      NormalizedComparesEdits(source, revised, maxEditRatio);
    }

    /** Whatever the worker answers, the result is the source text or a guarded rewrite of it. */
    method Revise(previousText: string, currentText: string, reply: Reply) returns (r: Result<Revision, TextError>)
      ensures r.Failure? <==> reply.Unavailable?
      ensures r.Success? ==>
        if reply.Parsed? && Guarded(previousText, currentText, reply.result)
        then r.value == reply.result
        else r.value == Revision(previousText, currentText, false)
      ensures reply.Parsed? ==>
        var source := Joined(previousText, currentText);
        var revised := Joined(reply.result.previousText, reply.result.currentText);
        var accepted := && (forall token :: Occurrences(protectedTokens(source), token)
                                            <= Occurrences(protectedTokens(revised), token))
                        && Distance(source, revised) <= Allowance(MaxLength(source, revised), maxEditRatio);
        r == Success(if accepted then reply.result else Revision(previousText, currentText, false))
    {
      var source := Revision(previousText, currentText, false);
      match reply
      case Unavailable =>
        r := Failure(TextWorkerUnavailable);
      case Malformed =>
        r := Success(source);
      case Parsed(result) =>
        GuardedCountsTokens(previousText, currentText, result);
        var safe := SafeRevision(previousText, currentText, result);
        r := Success(if safe then result else source);
    }

    /**
     An accepted rewrite is reachable by few single-character edits, so below
     ratio one the guard also bounds how far the text can grow or shrink.
     */
    lemma AcceptedRewriteIsClose(previousText: string, currentText: string, result: Revision)
      requires 0.0 <= maxEditRatio && Guarded(previousText, currentText, result)
      ensures var source, revised := Joined(previousText, currentText), Joined(result.previousText, result.currentText);
              && LengthsWithin(|source|, |revised|, maxEditRatio)
              && exists script :: Turns(script, source, revised)
                   && |script| <= Allowance(MaxLength(source, revised), maxEditRatio)
    {
      var source, revised := Joined(previousText, currentText), Joined(result.previousText, result.currentText);
      DistanceIsLeastScript(source, revised);
      FewEditsKeepLength(source, revised, maxEditRatio);
    }

    /** With a zero ratio the guard accepts exactly the rewrites whose joined text is unchanged. */
    lemma ZeroRatioAcceptsOnlyTheSource(previousText: string, currentText: string, result: Revision)
      requires maxEditRatio == 0.0
      ensures Guarded(previousText, currentText, result)
              <==> Joined(previousText, currentText) == Joined(result.previousText, result.currentText)
    {
      var source, revised := Joined(previousText, currentText), Joined(result.previousText, result.currentText);
      DistanceZeroIffEqual(source, revised);
    }
  }

  /** Two pairs of sentences that the guard cannot tell apart. */
  predicate Moved(p: string, c: string, p': string, c': string) {
    (p' != p || c' != c) && Joined(p', c') == Joined(p, c)
  }

  /** Some other pair has the same joined text exactly when one of the two sentences holds a newline. */
  lemma TextMovesFreelyIff(p: string, c: string)
    ensures (exists p', c' :: Moved(p, c, p', c')) <==> '\n' in p || '\n' in c
  {
    var t := Joined(p, c);
    if '\n' in p {
      var i :| 0 <= i < |p| && p[i] == '\n';
      assert p == p[..i] + "\n" + p[i + 1..];
      assert Joined(p[..i], p[i + 1..] + "\n" + c) == t;
      assert Moved(p, c, p[..i], p[i + 1..] + "\n" + c);
    } else if '\n' in c {
      var i :| 0 <= i < |c| && c[i] == '\n';
      assert c == c[..i] + "\n" + c[i + 1..];
      assert Joined(p + "\n" + c[..i], c[i + 1..]) == t;
      assert Moved(p, c, p + "\n" + c[..i], c[i + 1..]);
    } else {
      forall p', c' | Joined(p', c') == t
        ensures p' == p && c' == c
      {
        OnlyOneNewline(p, c, p', c');
      }
    }
  }

  lemma OnlyOneNewline(p: string, c: string, p': string, c': string)
    requires '\n' !in p && '\n' !in c && Joined(p', c') == Joined(p, c)
    ensures p' == p && c' == c
  {
    var t := Joined(p, c);
    assert forall i :: 0 <= i < |t| && t[i] == '\n' ==> i == |p|;
    assert Joined(p', c')[|p'|] == '\n';
    assert p == t[..|p|] && p' == Joined(p', c')[..|p'|];
    assert c == t[|p| + 1..] && c' == Joined(p', c')[|p'| + 1..];
  }

  /** The joined text determines both sentences when neither first one holds a newline. */
  lemma JoinedSplits(p: string, c: string, p': string, c': string)
    requires '\n' !in p && '\n' !in p'
    requires Joined(p, c) == Joined(p', c')
    ensures p == p' && c == c'
  {
    var t := Joined(p, c);
    assert t[|p|] == '\n' && forall i :: 0 <= i < |p| ==> t[i] == p[i];
    assert Joined(p', c')[|p'|] == '\n' && forall i :: 0 <= i < |p'| ==> Joined(p', c')[i] == p'[i];
    assert |p| == |p'|;
    assert p == t[..|p|] && p' == Joined(p', c')[..|p'|];
    assert c == t[|p| + 1..] && c' == Joined(p', c')[|p'| + 1..];
  }

  /** Such a move costs no edit and loses no token, so the guard accepts it at any ratio. */
  lemma FreeMovesAreAccepted(provider: LlamaCppTextProvider, p: string, c: string, p': string, c': string,
                             changed: bool)
    requires 0.0 <= provider.maxEditRatio && Joined(p', c') == Joined(p, c)
    ensures provider.Guarded(p, c, Revision(p', c', changed))
  {
    var text := Joined(p, c);
    DistanceToSelf(text);
    AllowanceIsNatural(MaxLength(text, text), provider.maxEditRatio);
  }

  /**
   The text `v` crosses to the other row when the newline and the character `x` at its other end
   change places. Whether or not the sentences hold newlines, the guard accepts this in either
   direction exactly when two edits are allowed and every protected token survives.
   */
  lemma WordCrossesRowsIff(provider: LlamaCppTextProvider, u: string, x: char, v: string, w: string)
    requires x != '\n'
    ensures var first, second := Joined(u + [x] + v, w), Joined(u, v + [x] + w);
            var roomForTwo := 2 <= Allowance(|u| + |v| + |w| + 2, provider.maxEditRatio);
            && (provider.Guarded(u + [x] + v, w, Revision(u, v + [x] + w, true))
                <==> roomForTwo && provider.KeepsTokens(first, second))
            && (provider.Guarded(u, v + [x] + w, Revision(u + [x] + v, w, true))
                <==> roomForTwo && provider.KeepsTokens(second, first))
  {
    var first, second := Joined(u + [x] + v, w), Joined(u, v + [x] + w);
    assert first == u + [x] + v + ['\n'] + w && second == u + ['\n'] + v + [x] + w;
    ExchangeCostsTwo(u, x, v, '\n', w);
    ExchangeCostsTwo(u, '\n', v, x, w);
  }

  const DEFAULT_RATIO := 0.35

  /** At the default ratio two edits are allowed as soon as the sentences hold four more characters. */
  lemma DefaultRatioAllowsCrossing(u: string, v: string, w: string)
    ensures 2 <= Allowance(|u| + |v| + |w| + 2, DEFAULT_RATIO) <==> |u| + |v| + |w| >= 4
  {
    var n := |u| + |v| + |w| + 2;
    assert DEFAULT_RATIO * n as real >= 2.0 <==> n >= 6;
  }
}

/** Ordered transcript rows with a one-sentence revision window. */
module TranscriptLedger {
  import opened Wrappers

  type UtteranceId = nat

  datatype Row = Row(id: UtteranceId, text: string, final: bool, locked: bool, revisable: bool)

  type Rows = seq<Row>

  datatype LedgerError = StaleTranscript

  function NewRow(id: UtteranceId, text: string, final: bool): Row {
    Row(id, text, final, false, false)
  }

  function Last(rows: Rows): Row
    requires rows != []
  {
    rows[|rows| - 1]
  }

  function WithLast(rows: Rows, row: Row): Rows
    requires rows != []
  {
    rows[|rows| - 1 := row]
  }

  predicate IsNew(rows: Rows, id: UtteranceId) {
    forall i :: 0 <= i < |rows| ==> rows[i].id != id
  }

  function OpenNext(rows: Rows, id: UtteranceId, text: string, final: bool): Rows
    requires rows != []
  {
    var current := Last(rows);
    (if current.locked then rows else WithLast(rows, current.(revisable := true))) + [NewRow(id, text, final)]
  }

  function AcceptPartial(rows: Rows, id: UtteranceId, text: string): Result<Rows, LedgerError> {
    if rows == [] then Success([NewRow(id, text, false)])
    else if Last(rows).id == id && !Last(rows).locked then Success(WithLast(rows, Last(rows).(text := text)))
    else if Last(rows).final && IsNew(rows, id) then Success(OpenNext(rows, id, text, false))
    else Failure(StaleTranscript)
  }

  function AcceptFinal(rows: Rows, id: UtteranceId, text: string): Result<Rows, LedgerError> {
    if rows == [] then Success([NewRow(id, text, true)])
    else if Last(rows).id == id && !Last(rows).locked then
      Success(WithLast(rows, Last(rows).(text := text, final := true)))
    else if Last(rows).final && IsNew(rows, id) then Success(OpenNext(rows, id, text, true))
    else Failure(StaleTranscript)
  }

  function ApplyRevision(rows: Rows, id: UtteranceId, previousText: string, currentText: string)
      : Result<Rows, LedgerError> {
    if rows == [] || Last(rows).id != id || Last(rows).locked || !Last(rows).final then Failure(StaleTranscript)
    else
      var n := |rows|;
      if n > 1 then
        var previous := rows[n - 2];
        if previous.locked || !previous.revisable then Failure(StaleTranscript)
        else
          var settled := previous.(text := previousText, locked := true, revisable := false);
          Success(rows[n - 2 := settled][n - 1 := Last(rows).(text := currentText)])
      else Success(WithLast(rows, Last(rows).(text := currentText)))
  }

  function Finalized(rows: Rows): Rows {
    seq(|rows|, i requires 0 <= i < |rows| => rows[i].(locked := true, revisable := false))
  }

  class TranscriptLedger {
    var rows: Rows

    ghost predicate Valid()
      reads this
    {
      WellKept(rows)
    }

    constructor ()
      ensures Valid() && rows == []
    {
      rows := [];
    }

    method Partial(id: UtteranceId, text: string) returns (r: Result<(), LedgerError>)
      requires Valid()
      modifies this
      ensures Valid()
      ensures match AcceptPartial(old(rows), id, text)
              case Failure(e) => r == Failure(e) && rows == old(rows)
              case Success(next) => r == Success(()) && rows == next
    {
      StepIsKept(rows, PartialText(id, text));
      if rows == [] {
        rows := rows + [NewRow(id, text, false)];
        return Success(());
      }
      var current := rows[|rows| - 1];
      if current.id == id && !current.locked {
        rows := rows[|rows| - 1 := current.(text := text)];
        return Success(());
      }
      if current.final && IsNew(rows, id) {
        OpenRow(id, text, false);
        return Success(());
      }
      return Failure(StaleTranscript);
    }

    method Final(id: UtteranceId, text: string) returns (r: Result<(), LedgerError>)
      requires Valid()
      modifies this
      ensures Valid()
      ensures match AcceptFinal(old(rows), id, text)
              case Failure(e) => r == Failure(e) && rows == old(rows)
              case Success(next) => r == Success(()) && rows == next
    {
      StepIsKept(rows, FinalText(id, text));
      if rows == [] {
        rows := rows + [NewRow(id, text, true)];
        return Success(());
      }
      var current := rows[|rows| - 1];
      if current.id == id && !current.locked {
        rows := rows[|rows| - 1 := current.(text := text, final := true)];
        return Success(());
      }
      if current.final && IsNew(rows, id) {
        OpenRow(id, text, true);
        return Success(());
      }
      return Failure(StaleTranscript);
    }

    method Revise(id: UtteranceId, previousText: string, currentText: string) returns (r: Result<(), LedgerError>)
      requires Valid()
      modifies this
      ensures Valid()
      ensures match ApplyRevision(old(rows), id, previousText, currentText)
              case Failure(e) => r == Failure(e) && rows == old(rows)
              case Success(next) => r == Success(()) && rows == next
    {
      StepIsKept(rows, Revision(id, previousText, currentText));
      if rows == [] || rows[|rows| - 1].id != id {
        return Failure(StaleTranscript);
      }
      var current := rows[|rows| - 1];
      if current.locked || !current.final {
        return Failure(StaleTranscript);
      }
      if |rows| > 1 {
        var previous := rows[|rows| - 2];
        if previous.locked || !previous.revisable {
          return Failure(StaleTranscript);
        }
        rows := rows[|rows| - 2 := previous.(text := previousText, locked := true, revisable := false)];
      }
      rows := rows[|rows| - 1 := current.(text := currentText)];
      return Success(());
    }

    method Finalize()
      requires Valid()
      modifies this
      ensures Valid() && rows == Finalized(old(rows))
    {
      StepIsKept(rows, Finish);
      rows := Finalized(rows);
    }

    method OpenRow(id: UtteranceId, text: string, final: bool)
      requires rows != []
      modifies this
      ensures rows == OpenNext(old(rows), id, text, final)
    {
      var current := rows[|rows| - 1];
      if !current.locked {
        rows := rows[|rows| - 1 := current.(revisable := true)];
      }
      rows := rows + [NewRow(id, text, final)];
    }
  }

  // ---------- runs ----------

  datatype Op =
    | PartialText(id: UtteranceId, text: string)
    | FinalText(id: UtteranceId, text: string)
    | Revision(id: UtteranceId, previousText: string, currentText: string)
    | Finish

  function Attempt(rows: Rows, op: Op): Result<Rows, LedgerError> {
    match op
    case PartialText(id, text) => AcceptPartial(rows, id, text)
    case FinalText(id, text) => AcceptFinal(rows, id, text)
    case Revision(id, previousText, currentText) => ApplyRevision(rows, id, previousText, currentText)
    case Finish => Success(Finalized(rows))
  }

  /** A rejected call changes nothing. */
  function Step(rows: Rows, op: Op): Rows {
    match Attempt(rows, op)
    case Failure(_) => rows
    case Success(next) => next
  }

  function Run(rows: Rows, ops: seq<Op>): Rows
    decreases |ops|
  {
    if ops == [] then rows else Run(Step(rows, ops[0]), ops[1..])
  }

  /** Distinct ids, every row but the last is final and has been opened to revision or locked. */
  ghost predicate WellKept(rows: Rows) {
    && (forall i, j :: 0 <= i < j < |rows| ==> rows[i].id != rows[j].id)
    && (forall i :: 0 <= i < |rows| - 1 ==> rows[i].final && (rows[i].locked || rows[i].revisable))
    && (forall i :: 0 <= i < |rows| ==> rows[i].locked ==> !rows[i].revisable)
    && (rows != [] ==> !Last(rows).revisable)
  }

  /** How an earlier state of the ledger constrains every later one. */
  ghost predicate Extends(before: Rows, after: Rows) {
    && |before| <= |after|
    && (forall i :: 0 <= i < |before| ==> after[i].id == before[i].id)
    && (forall i :: 0 <= i < |before| ==> before[i].final ==> after[i].final)
    && (forall i :: 0 <= i < |before| ==> before[i].locked ==> after[i] == before[i])
    && (forall i :: 0 <= i < |before| - 2 ==> after[i].text == before[i].text)
    && (forall i :: 0 <= i < |before| - 1 ==> after[i].text == before[i].text || after[i].locked)
  }

  lemma StepIsKept(rows: Rows, op: Op)
    requires WellKept(rows)
    ensures WellKept(Step(rows, op)) && Extends(rows, Step(rows, op))
  {
    StepIsWellKept(rows, op);
  }

  lemma StepIsWellKept(rows: Rows, op: Op)
    requires WellKept(rows)
    ensures WellKept(Step(rows, op))
  {
  }

  lemma ExtendsTransitive(a: Rows, b: Rows, c: Rows)
    requires Extends(a, b) && Extends(b, c)
    ensures Extends(a, c)
  {
  }

  /**
   In every run: ids are append-only and distinct, all rows but the last are
   final, locked rows and texts below the last two rows never change, and a
   row that a later sentence rewrites is locked.
   */
  lemma {:induction false} RunIsKept(rows: Rows, ops: seq<Op>)
    requires WellKept(rows)
    ensures WellKept(Run(rows, ops)) && Extends(rows, Run(rows, ops))
    decreases |ops|
  {
    if ops != [] {
      var next := Step(rows, ops[0]);
      StepIsKept(rows, ops[0]);
      RunIsKept(next, ops[1..]);
      ExtendsTransitive(rows, next, Run(next, ops[1..]));
    }
  }

  /** A row that is no longer the last is rewritten at most once, whatever follows. */
  lemma RewrittenAtMostOnce(rows: Rows, first: seq<Op>, second: seq<Op>, i: nat)
    requires WellKept(rows) && i < |rows| - 1
    ensures var mid := Run(rows, first);
            var end := Run(mid, second);
            && |rows| <= |mid| <= |end|
            && (mid[i].text != rows[i].text ==> end[i] == mid[i])
  {
    RunIsKept(rows, first);
    RunIsKept(Run(rows, first), second);
  }

  /** An accepted text is the last row's, and every row before it keeps its text; a revision also sets the row
      before. */
  lemma AcceptedTextIsShown(rows: Rows, op: Op)
    requires WellKept(rows) && Attempt(rows, op).Success? && !op.Finish?
    ensures var after := Step(rows, op); var n := |after|;
            && n > 0 && Last(after).id == op.id
            && Last(after).text == (if op.Revision? then op.currentText else op.text)
            && (Last(after).final
               <==> op.FinalText? || op.Revision? || (rows != [] && Last(rows).id == op.id && Last(rows).final))
            && (op.Revision? && n > 1 ==> after[n - 2].text == op.previousText && after[n - 2].locked)
            && forall i :: 0 <= i < n - 1 && !(op.Revision? && i == n - 2) ==> after[i].text == rows[i].text
  {
  }

  // ---------- one sentence from its first partial to its revision ----------

  /** The ledger has room for a new sentence: it is empty, or its last row is final and the stream not finalized. */
  predicate TakesNewSentence(rows: Rows) {
    rows == [] || (Last(rows).final && !Last(rows).locked)
  }

  /** The rows of earlier sentences, as a new one finds them and as its revision leaves them. */
  predicate OnlyLastRewritten(before: Rows, after: Rows, previousText: string) {
    && |after| == |before| + 1
    && (forall i :: 0 <= i < |before| - 1 ==> after[i] == before[i])
    && (before != [] ==>
          after[|before| - 1] == Last(before).(text := previousText, locked := true, revisable := false))
  }

  /**
   Every sentence goes through: its partials and its final are accepted and shown in their turn, and so is
   one revision, which rewrites it and the sentence before it, locks that one, and is the last of its kind.
   */
  lemma SentenceIsServed(rows: Rows, id: UtteranceId, first: string, second: string, final: string, previous: string,
                         current: string)
    requires WellKept(rows) && TakesNewSentence(rows) && IsNew(rows, id)
    ensures var one := Step(rows, PartialText(id, first));
            var two := Step(one, PartialText(id, second));
            var three := Step(two, FinalText(id, final));
            var four := Step(three, Revision(id, previous, current));
            && |one| == |two| == |three| == |four| == |rows| + 1
            && Last(one) == Row(id, first, false, false, false)
            && Last(two) == Row(id, second, false, false, false)
            && Last(three) == Row(id, final, true, false, false)
            && Last(four) == Row(id, current, true, false, false)
            && OnlyLastRewritten(rows, four, previous)
            && TakesNewSentence(three) && TakesNewSentence(four)
            && (rows != [] ==> Attempt(four, Revision(id, previous, current)).Failure?)
  {
    var one := Step(rows, PartialText(id, first));
    assert Last(one) == NewRow(id, first, false);
    var two := Step(one, PartialText(id, second));
    assert Last(two) == NewRow(id, second, false);
    var three := Step(two, FinalText(id, final));
    assert Last(three) == NewRow(id, final, true);
  }

  /** A text is accepted for the first sentence, for the last one while open, and for a new one after a final one. */
  lemma TextAcceptedIff(rows: Rows, op: Op)
    requires op.PartialText? || op.FinalText?
    ensures Attempt(rows, op).Success?
            <==> || rows == []
                 || (Last(rows).id == op.id && !Last(rows).locked)
                 || (Last(rows).final && forall i :: 0 <= i < |rows| ==> rows[i].id != op.id)
  {
  }

  /** A revision is accepted for the last sentence once it is final, while it and the one before it are open. */
  lemma RevisionAcceptedIff(rows: Rows, op: Op)
    requires WellKept(rows) && op.Revision?
    ensures Attempt(rows, op).Success?
            <==> && rows != [] && Last(rows).id == op.id && Last(rows).final && !Last(rows).locked
                 && (|rows| > 1 ==> !rows[|rows| - 2].locked)
  {
  }

  // ---------- what blocks the ledger ----------

  ghost predicate NoFinalFor(ops: seq<Op>, id: UtteranceId) {
    forall i :: 0 <= i < |ops| ==> !(ops[i].FinalText? && ops[i].id == id)
  }

  /**
   While the last row is not final, no other utterance gets a row: if the final
   text of that utterance never arrives, the transcript never grows again.
   */
  lemma {:induction false} LostFinalBlocksTheLedger(rows: Rows, ops: seq<Op>)
    requires rows != [] && !Last(rows).final && NoFinalFor(ops, Last(rows).id)
    ensures var end := Run(rows, ops);
            |end| == |rows| && !Last(end).final && Last(end).id == Last(rows).id
    decreases |ops|
  {
    if ops != [] {
      assert !(ops[0].FinalText? && ops[0].id == Last(rows).id);
      var next := Step(rows, ops[0]);
      assert |next| == |rows| && !Last(next).final && Last(next).id == Last(rows).id;
      assert NoFinalFor(ops[1..], Last(next).id);
      LostFinalBlocksTheLedger(next, ops[1..]);
    }
  }

  /** A new utterance is accepted exactly when the last row is final. */
  lemma NewUtteranceAccepted(rows: Rows, id: UtteranceId, text: string)
    requires IsNew(rows, id)
    ensures AcceptFinal(rows, id, text).Success? <==> rows == [] || Last(rows).final
    ensures AcceptPartial(rows, id, text).Success? <==> rows == [] || Last(rows).final
  {
    if rows != [] {
      assert rows[|rows| - 1].id != id;
    }
  }

  /** Finalizing with an open row shuts the ledger for good. */
  lemma {:induction false} FinalizedOpenRowIsTheEnd(rows: Rows, ops: seq<Op>)
    requires WellKept(rows) && rows != [] && !Last(rows).final
    requires forall i :: 0 <= i < |rows| ==> rows[i].locked
    ensures Run(rows, ops) == rows
    decreases |ops|
  {
    if ops != [] {
      assert Finalized(rows) == rows;
      assert Step(rows, ops[0]) == rows;
      FinalizedOpenRowIsTheEnd(rows, ops[1..]);
    }
  }

  /** What one call locks: everything when the stream ends, and otherwise only the row before an accepted revision. */
  predicate LocksRow(rows: Rows, op: Op, i: nat) {
    op.Finish? || (op.Revision? && Attempt(rows, op).Success? && i + 2 == |rows|)
  }

  lemma StepLocksIff(rows: Rows, op: Op, i: nat)
    requires i < |rows|
    ensures i < |Step(rows, op)|
    ensures Step(rows, op)[i].locked <==> rows[i].locked || LocksRow(rows, op, i)
  {
  }

  /** A row with two rows after it is locked by the end of a run exactly when it already was or the stream ends. */
  lemma {:induction false} OlderRowLocksIff(rows: Rows, ops: seq<Op>, i: nat)
    requires i + 2 < |rows|
    ensures |rows| <= |Run(rows, ops)|
    ensures Run(rows, ops)[i].locked <==> rows[i].locked || Finish in ops
    decreases |ops|
  {
    if ops != [] {
      StepLocksIff(rows, ops[0], i);
      OlderRowLocksIff(Step(rows, ops[0]), ops[1..], i);
      assert Finish in ops <==> ops[0] == Finish || Finish in ops[1..];
    }
  }

  // ---------- common prefix of two hypotheses ----------

  method StablePrefix(previous: string, current: string) returns (prefix: string)
    ensures prefix <= previous && prefix <= current
    ensures |prefix| < |previous| && |prefix| < |current| ==> previous[|prefix|] != current[|prefix|]
  {
    var limit := if |previous| <= |current| then |previous| else |current|;
    var index := 0;
    while index < limit && previous[index] == current[index]
      invariant index <= limit && previous[..index] == current[..index]
    {
      index := index + 1;
    }
    prefix := current[..index];
  }
}

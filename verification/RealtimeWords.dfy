/** Which texts reach the rows, the corrections and the questions, step by step. */
module RealtimeWords {
  import opened Wrappers
  import opened RealtimeQueue
  import opened RealtimeCoordinator
  import opened RealtimeResults

  // ---------- texts that are heard ----------

  /** The last row is this utterance's and shows this text; every row before it shows what it did. */
  predicate ShownLast(rows: Ledger.Rows, rows': Ledger.Rows, id: UtteranceId, text: string) {
    && rows' != [] && Ledger.Last(rows').id == id && Ledger.Last(rows').text == text
    && |rows| <= |rows'| <= |rows| + 1
    && forall i :: 0 <= i < |rows'| - 1 ==> rows'[i].text == rows[i].text
  }

  /** Every other stream keeps its rows. */
  predicate OthersKeepRows(sys: System, sys': System, s: SessionId) {
    && sys'.streams.Keys == sys.streams.Keys
    && forall t :: t in sys.streams && t != s ==> sys'.streams[t].rows == sys.streams[t].rows
  }

  /** A recognised final is shown as its utterance's final text, unless the ledger refuses it and the loop ends. */
  lemma FinalTextIsShown(sys: System, limits: Limits, text: string)
    requires sys.asr.Transcribing? && sys.asr.job.mode.Final? && sys.asr.job.session in sys.streams
    ensures var job, sys' := sys.asr.job, Next(sys, limits, AsrResult(Some(text)));
            var rows, rows' := sys.streams[job.session].rows, sys'.streams[job.session].rows;
            && OthersKeepRows(sys, sys', job.session)
            && (if LedgerRefuses(rows, job.utterance) then rows' == rows && sys'.asr == AsrStopped
                else ShownLast(rows, rows', job.utterance, text) && Ledger.Last(rows').final
                     && sys'.asr == FinalAccepted(job, text))
  {
  }

  /** A recognised partial is shown when it is the newest of its utterance and the ledger takes it, and else is not. */
  lemma PartialTextIsShown(sys: System, limits: Limits, text: string)
    requires sys.asr.Transcribing? && sys.asr.job.mode.Partial? && sys.asr.job.session in sys.streams
    ensures var job, sys' := sys.asr.job, Next(sys, limits, AsrResult(Some(text)));
            var st, st' := sys.streams[job.session], sys'.streams[job.session];
            && OthersKeepRows(sys, sys', job.session)
            && (if IsNewest(st, job) && !LedgerRefuses(st.rows, job.utterance)
                then ShownLast(st.rows, st'.rows, job.utterance, text) && sys'.asr == AsrTelling(job, 1)
                else st'.rows == st.rows && sys'.asr == AsrSettled(job))
  {
  }

  /** A failed transcription shows nothing; it is told, and a failed final completes its utterance. */
  lemma FailureShowsNothing(sys: System, limits: Limits)
    requires sys.asr.Transcribing? && sys.asr.job.session in sys.streams
    ensures var job, sys' := sys.asr.job, Next(sys, limits, AsrResult(None));
            sys' == sys.(asr := AsrTelling(job, if job.mode.Final? then 2 else 1))
  {
  }

  /**
   A recognised text can replace a final one: exactly when a partial of the same utterance, numbered last,
   comes back after its final while the row is the last and open.
   */
  lemma LatePartialReplacesFinalIff(sys: System, limits: Limits, text: string)
    requires sys.asr.Transcribing? && sys.asr.job.mode.Partial? && sys.asr.job.session in sys.streams
    requires var rows := sys.streams[sys.asr.job.session].rows;
             rows != [] && Ledger.Last(rows).final && Ledger.Last(rows).text != text
    ensures var job, sys' := sys.asr.job, Next(sys, limits, AsrResult(Some(text)));
            var st, n := sys.streams[job.session], |sys.streams[job.session].rows|;
            && n <= |sys'.streams[job.session].rows|
            && (sys'.streams[job.session].rows[n - 1].text == text
                <==> && IsNewest(st, job) && Ledger.Last(st.rows).id == job.utterance && !Ledger.Last(st.rows).locked)
  {
  }

  // ---------- corrections ----------

  /** A told final is corrected together with the text of the row before its own, if there is one. */
  lemma CorrectionAsksAboutTheRows(sys: System, limits: Limits)
    requires sys.asr.FinalAccepted? && AsrMayTell(sys, limits) && !EmitRaises(sys, limits, sys.asr.job.session)
    ensures var job, rows := sys.asr.job, sys.streams[sys.asr.job.session].rows;
            var told := Next(sys, limits, AsrTell).asr;
            && told.FinalTold? && told.job == job && told.text == sys.asr.text
            && (|rows| > 1 ==> told.previousText == rows[|rows| - 2].text)
            && (|rows| <= 1 ==> told.previousText == "")
  {
  }

  /** What is queued is a correction of that utterance of that stream, about those two texts, at the end of the lane. */
  lemma CorrectionIsQueued(sys: System, limits: Limits)
    requires sys.asr.FinalTold? && AsrMayTell(sys, limits)
    requires !sys.textQueue.closed && |sys.textQueue.corrections| < limits.texts
    ensures var job, sys' := sys.asr.job, Next(sys, limits, QueueCorrection);
            && sys'.textQueue.corrections
               == sys.textQueue.corrections
                  + [TextJob(job.session, job.utterance, Correction, sys.asr.previousText, sys.asr.text)]
            && sys'.textQueue.endpoints == sys.textQueue.endpoints && sys'.asr == AsrSettled(job)
  {
  }

  /** A revision in time sets both rows it was asked about; a late or failed one sets none. */
  lemma RevisionIsShown(sys: System, limits: Limits, previousText: string, currentText: string)
    requires sys.text.Inferring? && sys.text.job.mode.Correction? && sys.text.job.session in sys.streams
    ensures var job, sys' := sys.text.job, Next(sys, limits, TextResult(Revised(previousText, currentText)));
            var rows, rows' := sys.streams[job.session].rows, sys'.streams[job.session].rows;
            var n := |rows|;
            && OthersKeepRows(sys, sys', job.session) && |rows'| == n
            && (if Ledger.ApplyRevision(rows, job.utterance, "", "").Success?
                then && n > 0 && rows'[n - 1].id == job.utterance && rows'[n - 1].text == currentText
                     && (n > 1 ==> rows'[n - 2].text == previousText && rows'[n - 2].locked)
                     && (forall i :: 0 <= i < n - 2 ==> rows'[i] == rows[i])
                     && sys'.text == TextTelling(job, 2)
                else rows' == rows && sys'.text == TextSettled(job))
            && Next(sys, limits, TextResult(RevisionFailed)) == sys.(text := TextTelling(job, 2))
  {
  }

  predicate SameTexts(rows: Ledger.Rows, rows': Ledger.Rows) {
    |rows'| == |rows| && forall i :: 0 <= i < |rows| ==> rows'[i].text == rows[i].text
  }

  /** The steps from an accepted final to the answer to its correction. */
  function Corrected(sys: System, limits: Limits, p: string, c: string): System {
    Next(Next(Next(Next(sys, limits, AsrTell), limits, QueueCorrection), limits, TakeText), limits,
         TextResult(Revised(p, c)))
  }

  /** A correction that changes nothing, as the disabled one, leaves every text of the transcript as it was. */
  lemma UnchangedCorrectionKeepsTexts(sys: System, limits: Limits)
    requires sys.asr.FinalAccepted? && sys.asr.job.session in sys.registered
    requires Room(sys, limits, sys.asr.job.session, 2) && !EmitRaises(sys, limits, sys.asr.job.session)
    requires sys.text.TextWaiting? && sys.textQueue == TextQueue([], [], false) && limits.texts > 0
    requires var rows := sys.streams[sys.asr.job.session].rows;
             rows != [] && Ledger.Last(rows).id == sys.asr.job.utterance && Ledger.Last(rows).text == sys.asr.text
    ensures var s, rows := sys.asr.job.session, sys.streams[sys.asr.job.session].rows;
            var asked := Next(Next(Next(sys, limits, AsrTell), limits, QueueCorrection), limits, TakeText);
            && asked.text.Inferring?
            && var end := Corrected(sys, limits, asked.text.job.previousText, asked.text.job.currentText);
               s in end.streams && SameTexts(rows, end.streams[s].rows)
  {
    var told := Next(sys, limits, AsrTell);
    CorrectionAsksAboutTheRows(sys, limits);
    ToldKeepsRows(sys, limits);
    AskedKeepsRows(told, limits);
    var asked := Next(Next(told, limits, QueueCorrection), limits, TakeText);
    AnswerKeepsTexts(asked, limits, asked.text.job.previousText, asked.text.job.currentText);
  }

  /** Answering with the texts that stand in the rows changes none of them. */
  lemma AnswerKeepsTexts(sys: System, limits: Limits, p: string, c: string)
    requires sys.text.Inferring? && sys.text.job.mode.Correction? && sys.text.job.session in sys.streams
    requires var rows := sys.streams[sys.text.job.session].rows;
             && rows != [] && Ledger.Last(rows).text == c && (|rows| > 1 ==> rows[|rows| - 2].text == p)
    ensures var s, end := sys.text.job.session, Next(sys, limits, TextResult(Revised(p, c)));
            s in end.streams && SameTexts(sys.streams[s].rows, end.streams[s].rows)
  {
    RevisionIsShown(sys, limits, p, c);
    var s := sys.text.job.session;
    var rows, rows' := sys.streams[s].rows, Next(sys, limits, TextResult(Revised(p, c))).streams[s].rows;
    forall i | 0 <= i < |rows|
      ensures rows'[i].text == rows[i].text
    {
    }
  }

  lemma ToldKeepsRows(sys: System, limits: Limits)
    requires sys.asr.FinalAccepted? && AsrMayTell(sys, limits) && !EmitRaises(sys, limits, sys.asr.job.session)
    ensures var s, told := sys.asr.job.session, Next(sys, limits, AsrTell);
            && s in told.streams && told.streams[s].rows == sys.streams[s].rows
            && told.streams[s].waiting == sys.streams[s].waiting + 1
            && told.registered == sys.registered && told.textQueue == sys.textQueue && told.text == sys.text
  {
  }

  lemma AskedKeepsRows(sys: System, limits: Limits)
    requires sys.asr.FinalTold? && AsrMayTell(sys, limits) && sys.asr.job.session in sys.registered
    requires sys.text.TextWaiting? && sys.textQueue == TextQueue([], [], false) && limits.texts > 0
    ensures var s, asked := sys.asr.job.session, Next(Next(sys, limits, QueueCorrection), limits, TakeText);
            && s in asked.streams && asked.streams[s].rows == sys.streams[s].rows
            && asked.text
               == Inferring(TextJob(s, sys.asr.job.utterance, Correction, sys.asr.previousText, sys.asr.text))
  {
    var s, queued := sys.asr.job.session, Next(sys, limits, QueueCorrection);
    CorrectionIsQueued(sys, limits);
    assert queued.textQueue.endpoints == [] && |queued.textQueue.corrections| == 1;
    assert s in queued.streams && queued.streams[s].rows == sys.streams[s].rows;
    assert queued.registered == sys.registered && queued.text.TextWaiting?;
  }

  // ---------- questions ----------

  /** A question about an utterance shows its text so far; without a row of its own it shows nothing. */
  lemma QuestionShowsTheRow(sys: System, limits: Limits, s: SessionId, u: UtteranceId)
    requires s in sys.streams && !sys.textQueue.closed && |sys.textQueue.endpoints| < limits.texts
    ensures var rows, sys' := sys.streams[s].rows, Next(sys, limits, QueueEndpoint(s, u));
            var queue := sys'.textQueue.endpoints;
            && |queue| == |sys.textQueue.endpoints| + 1 && queue[..|queue| - 1] == sys.textQueue.endpoints
            && var job := queue[|queue| - 1];
               && job.session == s && job.utterance == u && job.mode == Endpoint
               && (rows != [] && rows[|rows| - 1].id == u ==> job.currentText == rows[|rows| - 1].text)
               && (rows == [] || rows[|rows| - 1].id != u ==> job.currentText == "")
  {
  }

  /** An answer about a blank text never finishes the utterance, so nothing is queued for recognition. */
  lemma BlankQuestionNeverFinishes(sys: System, limits: Limits, outcome: TextOutcome)
    requires sys.text.Inferring? && sys.text.job.mode.Endpoint? && sys.text.job.session in sys.streams
    requires forall i :: 0 <= i < |sys.text.job.currentText| ==> sys.text.job.currentText[i] in {' ', '\t', '\n', '\r'}
    ensures var sys' := Next(sys, limits, TextResult(outcome));
            && sys'.asrQueue == sys.asrQueue && sys'.streams == sys.streams
            && (sys'.text == TextNoting(sys.text.job) || sys'.text == TextSettled(sys.text.job))
  {
  }

  /** An answer that completes finishes the utterance as soon as its text shows one character that is no white space. */
  lemma SpokenQuestionFinishes(sys: System, limits: Limits, u: UtteranceId, pcm: seq<nat>, i: nat)
    requires sys.text.Inferring? && sys.text.job.mode.Endpoint? && sys.text.job.session in sys.streams
    requires i < |sys.text.job.currentText| && '!' <= sys.text.job.currentText[i] <= '~'
    requires !sys.asrQueue.closed && |sys.asrQueue.finals| < limits.finals
    ensures var sys' := Next(sys, limits, TextResult(Completes(u, pcm)));
            && |sys'.asrQueue.finals| == |sys.asrQueue.finals| + 1
            && sys'.text == TextNoting(sys.text.job)
  {
    assert !IsSpace(sys.text.job.currentText[i]);
  }

  /** What the worker has left to do after an answer: a note to the client, a warning, or nothing, or its loop ends. */
  lemma AnswerLeaves(sys: System, limits: Limits, outcome: TextOutcome)
    requires sys.text.Inferring? && sys.text.job.mode.Endpoint? && sys.text.job.session in sys.streams
    ensures var job, text' := sys.text.job, Next(sys, limits, TextResult(outcome)).text;
            && (outcome == Continues(true) ==> text' == TextNoting(job))
            && (outcome.Continues? && !outcome.extended ==> text' == TextSettled(job))
            && (outcome.Revised? || outcome.RevisionFailed? ==> text' == TextSettled(job))
            && (outcome.Completes? && !Blank(job.currentText) ==>
                  text' == if sys.asrQueue.closed then TextStopped
                           else if |sys.asrQueue.finals| < limits.finals then TextNoting(job)
                           else TextTelling(job, 1))
  {
  }

  // ---------- opening and stopping ----------

  /** A stop begins once, and fails at once when its last utterance can be neither queued nor reported. */
  lemma StopBeginsOnce(sys: System, limits: Limits, s: SessionId, speech: Option<(UtteranceId, seq<nat>)>)
    requires s in sys.streams
    ensures var sys' := Next(sys, limits, Stop(s, speech));
            && s in sys'.streams
            && var st, st' := sys.streams[s], sys'.streams[s];
               var fails := && speech.Some?
                            && (sys.asrQueue.closed
                                || (|sys.asrQueue.finals| >= limits.finals && limits.broker && s !in sys.known));
               && (st.stop == Running ==> st'.stop == if fails then StopFailed else Stopping)
               && (st.stop != Running ==> sys' == sys)
               && st'.rows == st.rows && st'.latest == st.latest && st'.offered == st.offered
  {
  }

  /** A stop ends by locking every row and showing the same texts; a stopped stream may start again. */
  lemma StopEndsLocked(sys: System, limits: Limits, s: SessionId)
    requires s in sys.streams
    ensures var finalized, restarted := Next(sys, limits, FinalizeLedger(s)), Next(sys, limits, Restart(s));
            && s in finalized.streams && s in restarted.streams
            && var st := sys.streams[s];
               && (if st.stop == Stopping
                   then && finalized.streams[s].stop == Stopped && SameTexts(st.rows, finalized.streams[s].rows)
                        && forall i :: 0 <= i < |st.rows| ==> finalized.streams[s].rows[i].locked
                   else finalized == sys)
               && (if st.stop == Stopped
                   then restarted.streams[s].stop == Running && restarted.streams[s].rows == st.rows
                   else restarted == sys)
  {
  }

  /** A session opens its stream once, empty and registered; closing takes it out of the registry and stops it. */
  lemma OpenAndClose(sys: System, limits: Limits, s: SessionId, speech: Option<(UtteranceId, seq<nat>)>)
    ensures var started := Next(sys, limits, Open(s));
            if s in sys.streams then started == sys
            else && started.registered == sys.registered + {s} && s in started.streams
                 && started.streams == sys.streams[s := started.streams[s]]
                 && started.streams[s] == Stream(0, true, 0, map[], [], Running, 0, 0, 0, [], 0)
                 && started.asrQueue == sys.asrQueue && started.textQueue == sys.textQueue
                 && started.asr == sys.asr && started.text == sys.text && started.known == sys.known
    ensures var closed := Next(sys, limits, Close(s, speech));
            && closed.registered == sys.registered - {s} && s !in closed.registered
            && (s in sys.registered && s in sys.streams ==>
                  && s in closed.streams
                  && closed.streams == Next(sys, limits, Stop(s, speech)).streams
                  && closed.asrQueue == Next(sys, limits, Stop(s, speech)).asrQueue)
            && (s !in sys.registered ==> closed.streams == sys.streams && closed.asrQueue == sys.asrQueue)
  {
  }

  /** The broker's sessions come and go by admission and eviction, and the queues close for good. */
  lemma BrokerAndQueues(sys: System, limits: Limits, s: SessionId)
    ensures Next(sys, limits, Admit(s)) == sys.(known := sys.known + {s})
    ensures Next(sys, limits, Evict(s)) == sys.(known := sys.known - {s})
    ensures var closed := Next(sys, limits, CloseQueues);
            && closed.asrQueue.closed && closed.textQueue.closed
            && closed == sys.(asrQueue := closed.asrQueue, textQueue := closed.textQueue)
            && closed.asrQueue.finals == sys.asrQueue.finals && closed.asrQueue.partials == sys.asrQueue.partials
            && closed.textQueue.endpoints == sys.textQueue.endpoints
            && closed.textQueue.corrections == sys.textQueue.corrections
  {
  }
}

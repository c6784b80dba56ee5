/** Runs of the model manager: what holds whenever its lock is free, and what a lease pins. */
module ModelLeases {
  import opened Wrappers
  import opened ModelManager

  datatype Call =
    | Activating(model: ModelId)
    | Acquiring(session: SessionId, model: ModelId)
    | Releasing(session: SessionId)
    | Transcribing(requester: Option<SessionId>, model: ModelId)

  datatype Answer = Polled(snapshot: Result<Snapshot, ManagerError>) | Text(text: Result<string, ManagerError>)

  /** One finished call: its answer, what happened to providers during it, and the state it left. */
  datatype Step = Step(call: Call, answer: Answer, during: Stretch, after: State)

  ghost predicate Allowed(factories: set<ModelId>, s: State, step: Step) {
    match step.call
    case Activating(m) =>
      step.answer.Polled? && Activates(factories, s, m, step.after, step.answer.snapshot, step.during)
    case Acquiring(x, m) =>
      step.answer.Polled? && Acquires(factories, s, x, m, step.after, step.answer.snapshot) && step.during == Start
    case Releasing(x) =>
      Releases(s, x, step.after) && step.during == Start
    case Transcribing(x, m) =>
      step.answer.Text? && Transcribes(factories, s, x, m, step.answer.text, step.during) && step.after == s
  }

  /** Calls by any number of sessions, one after the other as the lock admits them. */
  ghost predicate Run(factories: set<ModelId>, s: State, steps: seq<Step>)
    decreases |steps|
  {
    steps != [] ==> Allowed(factories, s, steps[0]) && Run(factories, steps[0].after, steps[1..])
  }

  lemma CallKeepsConsistent(factories: set<ModelId>, s: State, step: Step)
    requires Consistent(s) && Allowed(factories, s, step)
    ensures Consistent(step.after) && AtMostOneLive(step.during) && HonestPolls(step.during)
  {
  }

  /** Ready is one warmed provider of the active model, after every call of every run. */
  lemma {:induction false} RunIsConsistent(factories: set<ModelId>, s: State, steps: seq<Step>, i: nat)
    requires Consistent(s) && Run(factories, s, steps) && i < |steps|
    ensures Consistent(steps[i].after) && (steps[i].after.snapshot.state.Ready? <==> |steps[i].after.live| == 1)
    ensures AtMostOneLive(steps[i].during) && HonestPolls(steps[i].during)
    decreases |steps|
  {
    CallKeepsConsistent(factories, s, steps[0]);
    if i > 0 {
      RunIsConsistent(factories, steps[0].after, steps[1..], i - 1);
    }
  }

  /** An activation loses the service only when the previous model itself could not be loaded and warmed again. */
  lemma ServiceSurvives(factories: set<ModelId>, s: State, model: ModelId, s': State, r: Result<Snapshot, ManagerError>,
                        during: Stretch)
    requires Consistent(s) && s.active.Some? && Activates(factories, s, model, s', r, during)
    ensures s.active.value !in Broken(during) <==> s'.snapshot.state.Ready?
    ensures s'.snapshot.state.Ready? ==> Serving(s', if r.Success? then model else s.active.value)
    ensures !s'.snapshot.state.Ready? ==> Empty(s')
  {
    if s'.provider == s.provider && during == Start {
      assert Serving(s', s.active.value);
    }
  }

  ghost predicate Leased(s: State, session: SessionId, model: ModelId, p: Provider) {
    Serving(s, model) && s.provider == Some(p) && s.snapshot.leasedBy == Some(session)
  }

  /** Nothing but inference for this session, on this provider. */
  predicate OnlyInfers(during: Stretch, session: SessionId, model: ModelId, p: Provider) {
    during.Then? ==>
      && during.act.Inferred? && during.act == Inferred(Some(session), model, p, during.act.text)
      && OnlyInfers(during.before, session, model, p)
  }

  /** The session's own requests for its model are answered with what the pinned provider said; nobody else's are. */
  ghost predicate PinnedAnswer(factories: set<ModelId>, step: Step, session: SessionId, model: ModelId, p: Provider) {
    step.call.Transcribing? ==>
      && step.answer.Text?
      && (if step.call == Transcribing(Some(session), model) && model in factories then
            && step.during.Then? && step.during.act.Inferred? && step.during.act.provider == p
            && (forall t :: step.answer.text == Success(t) <==> step.during.act.text == Some(t))
            && (step.answer.text == Failure(InferenceFailed) <==> step.during.act.text == None)
          else step.answer.text.Failure? && step.during == Start)
  }

  lemma CallKeepsLease(factories: set<ModelId>, s: State, step: Step, session: SessionId, model: ModelId, p: Provider)
    requires Leased(s, session, model, p) && Allowed(factories, s, step) && step.call != Releasing(session)
    ensures Leased(step.after, session, model, p) && OnlyInfers(step.during, session, model, p)
    ensures step.after == s && PinnedAnswer(factories, step, session, model, p)
  {
  }

  /** Until the owner releases, no call by anyone changes the ready state, the active model or the provider, or
      infers for anyone else. */
  lemma {:induction false} LeasePins(factories: set<ModelId>, s: State, steps: seq<Step>, session: SessionId,
                                     model: ModelId, p: Provider, i: nat)
    requires Leased(s, session, model, p) && Run(factories, s, steps) && i < |steps|
    requires forall j :: 0 <= j <= i ==> steps[j].call != Releasing(session)
    ensures Leased(steps[i].after, session, model, p) && OnlyInfers(steps[i].during, session, model, p)
    ensures PinnedAnswer(factories, steps[i], session, model, p)
    decreases |steps|
  {
    CallKeepsLease(factories, s, steps[0], session, model, p);
    if i > 0 {
      forall j | 0 <= j <= i - 1
        ensures steps[1..][j].call != Releasing(session)
      {
        assert steps[1..][j] == steps[j + 1];
      }
      LeasePins(factories, steps[0].after, steps[1..], session, model, p, i - 1);
    }
  }

  /** From a granted acquisition on, the session's model is resident until the session releases it. */
  lemma AcquiredModelStays(factories: set<ModelId>, s: State, session: SessionId, model: ModelId, steps: seq<Step>,
                           i: nat)
    requires Consistent(s) && Run(factories, s, steps) && 0 < i < |steps|
    requires steps[0].call == Acquiring(session, model) && steps[0].answer.snapshot.Success?
    requires forall j :: 0 < j <= i ==> steps[j].call != Releasing(session)
    ensures s.provider.Some? && Leased(steps[i].after, session, model, s.provider.value)
    ensures OnlyInfers(steps[i].during, session, model, s.provider.value)
    ensures PinnedAnswer(factories, steps[i], session, model, s.provider.value)
  {
    var p := s.provider.value;
    assert Leased(steps[0].after, session, model, p);
    forall j | 0 <= j <= i - 1
      ensures steps[1..][j].call != Releasing(session)
    {
      assert steps[1..][j] == steps[j + 1];
    }
    LeasePins(factories, steps[0].after, steps[1..], session, model, p, i - 1);
  }

  /** A release by anyone else changes nothing; the owner's release frees the model for the next session. */
  lemma OnlyTheOwnerReleases(factories: set<ModelId>, s: State, session: SessionId, model: ModelId, p: Provider,
                             other: SessionId, s': State)
    requires Leased(s, session, model, p) && Releases(s, other, s') && model in factories
    ensures s'.snapshot.leasedBy == None <==> other == session
    ensures forall next, s'', r :: Acquires(factories, s', next, model, s'', r)
                                   ==> (r.Success? <==> other == session || next == session)
  {
  }
}

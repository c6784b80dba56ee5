/** What each call of the model manager amounts to, told in the fields a caller and a poller see. */
module ModelOutcomes {
  import opened Wrappers
  import opened ModelManager
  import opened ModelLeases

  /** One live, warmed provider of this model, published as ready. */
  ghost predicate Resident(s: State, model: ModelId) {
    && (exists p :: && s.provider == Some(p) && p.model == model && s.live == {p.serial} && p.serial in s.warmed
                    && s.snapshot.device == p.device)
    && s.active == Some(model)
    && s.snapshot.state == Ready && s.snapshot.active == Some(model) && s.snapshot.requested == None
  }

  /** Nothing is live, and nothing is published as active. */
  ghost predicate Vacant(s: State) {
    && s.provider == None && s.active == None && s.live == {}
    && s.snapshot.active == None && s.snapshot.requested == None && s.snapshot.leasedBy == None
  }

  /** Whenever the lock is free, the manager is one or the other, in every run. */
  lemma {:induction false} AlwaysResidentOrVacant(factories: set<ModelId>, s: State, steps: seq<Step>, i: nat)
    requires Consistent(s) && Run(factories, s, steps) && i < |steps|
    ensures var now := steps[i].after;
            || (now.active.Some? && Resident(now, now.active.value))
            || (Vacant(now) && (now.snapshot.state == Idle || now.snapshot.state == Failed))
    decreases |steps|
  {
    RunIsConsistent(factories, s, steps, i);
  }

  /** An activation is refused for an unknown model and for another model than the leased one, and then does nothing. */
  lemma ActivationRefusedIff(factories: set<ModelId>, s: State, model: ModelId, s': State,
                             r: Result<Snapshot, ManagerError>, during: Stretch)
    requires Consistent(s) && Activates(factories, s, model, s', r, during)
    ensures r == Failure(UnknownModel) <==> model !in factories
    ensures r == Failure(LeaseConflict)
            <==> model in factories && s.snapshot.leasedBy.Some? && s.active != Some(model)
    ensures r == Failure(UnknownModel) || r == Failure(LeaseConflict) ==> s' == s && during == Start
  {
  }

  /** An admitted activation ends on the requested model, on the previous one, or on none, and says so. */
  lemma ActivationEnds(factories: set<ModelId>, s: State, model: ModelId, s': State,
                       r: Result<Snapshot, ManagerError>, during: Stretch)
    requires Consistent(s) && Activates(factories, s, model, s', r, during)
    requires model in factories && (s.snapshot.leasedBy.Some? ==> s.active == Some(model))
    ensures s.active == Some(model) ==> r == Success(s.snapshot) && s' == s && during == Start
    ensures s.active != Some(model) ==>
              match r
              case Success(snapshot) =>
                snapshot == s'.snapshot && Resident(s', model) && snapshot.error == None && Clean(during)
              case Failure(e) =>
                && s'.snapshot.error == Some(e) && !Clean(during)
                && (e == ActivationFailed || e == RollbackFailed)
                && (e == RollbackFailed <==> s.active.Some? && s.active.value in Broken(during))
                && (if e == ActivationFailed && s.active.Some? then Resident(s', s.active.value)
                    else Vacant(s') && s'.snapshot.state == Failed)
  {
  }

  // ---------- what is polled meanwhile ----------

  function Polls(shown: Seen): seq<Glimpse> {
    if shown.Nothing? then [] else Polls(shown.before) + [shown.view]
  }

  /** What a poller may see before an activation ends: the unloading, and the attempt as far as it got. */
  ghost predicate Progress(polls: seq<Glimpse>, previous: Option<ModelId>, model: ModelId) {
    var unloading := Glimpse(Unloading, previous, Some(model), None);
    var loading, warming := Glimpse(Loading, None, Some(model), None), Glimpse(Warming, None, Some(model), None);
    if previous.Some? then
      polls == [unloading] || polls == [unloading, loading] || polls == [unloading, loading, warming]
    else polls == [loading] || polls == [loading, warming]
  }

  lemma PollsOfAttempt(previous: Option<ModelId>, model: ModelId, attempt: Attempt)
    requires previous.None? ==> attempt != NotTried
    ensures Progress(Polls(Attempted(Unloaded(previous, model), model, attempt)), previous, model)
    ensures attempt == WarmTried ==>
              var polls := Polls(Attempted(Unloaded(previous, model), model, attempt));
              polls != [] && polls[|polls| - 1] == Glimpse(Warming, None, Some(model), None)
  {
    var unloading := Glimpse(Unloading, previous, Some(model), None);
    var loading, warming := Glimpse(Loading, None, Some(model), None), Glimpse(Warming, None, Some(model), None);
    var start := Unloaded(previous, model);
    if previous.Some? {
      assert Polls(start) == [] + [unloading] == [unloading];
      assert Polls(Later(start, loading)) == [unloading] + [loading] == [unloading, loading];
      assert Polls(Later(Later(start, loading), warming)) == [unloading, loading] + [warming]
          == [unloading, loading, warming];
    } else {
      assert Polls(Later(start, loading)) == [] + [loading] == [loading];
      assert Polls(Later(Later(start, loading), warming)) == [loading] + [warming] == [loading, warming];
    }
  }

  /** How the polls of an activation end. */
  ghost predicate Ending(last: seq<Glimpse>, previous: Option<ModelId>, model: ModelId,
                         r: Result<Snapshot, ManagerError>) {
    if r.Success? then last == [Glimpse(Ready, Some(model), None, None)]
    else if previous.None? then last == [Glimpse(Failed, None, None, Some(ActivationFailed))]
    else
      last == [Glimpse(RollingBack, None, Some(model), Some(ActivationFailed)),
               if r == Failure(ActivationFailed) then Glimpse(Ready, previous, None, Some(ActivationFailed))
               else Glimpse(Failed, None, None, Some(RollbackFailed))]
  }

  /** Every switch is polled as its progress and then its ending; a successful one got as far as warming. */
  lemma PollsTellTheSwitch(s: State, model: ModelId, s': State, r: Result<Snapshot, ManagerError>, during: Stretch)
      returns (progress: seq<Glimpse>, ending: seq<Glimpse>)
    requires Switches(s, model, s', r, during)
    ensures Polls(Shown(during)) == progress + ending
    ensures Progress(progress, s.active, model) && Ending(ending, s.active, model, r)
    ensures r.Success? ==> progress[|progress| - 1] == Glimpse(Warming, None, Some(model), None)
  {
    var attempt := if Shown(during) == Announcements(s.active, model, WarmTried, r) then WarmTried
                   else if Shown(during) == Announcements(s.active, model, LoadTried, r) then LoadTried
                   else NotTried;
    PollsOfAttempt(s.active, model, attempt);
    progress, ending := PollsSplit(s.active, model, attempt, r);
  }

  lemma PollsSplit(previous: Option<ModelId>, model: ModelId, attempt: Attempt, r: Result<Snapshot, ManagerError>)
      returns (progress: seq<Glimpse>, ending: seq<Glimpse>)
    ensures Polls(Announcements(previous, model, attempt, r)) == progress + ending
    ensures progress == Polls(Attempted(Unloaded(previous, model), model, attempt))
    ensures Ending(ending, previous, model, r)
  {
    var tried, all := Attempted(Unloaded(previous, model), model, attempt), Announcements(previous, model, attempt, r);
    progress := Polls(tried);
    if r.Success? || previous.None? {
      ending := [all.view];
      assert all.before == tried;
    } else {
      ending := [all.before.view, all.view];
      assert all.before.before == tried;
      assert Polls(all.before) == progress + [all.before.view];
      assert progress + [all.before.view] + [all.view] == progress + ending;
    }
  }

  // ---------- leases and inference ----------

  /** A lease is granted exactly to its holder, or on a free lease, for the resident model; only the holder changes. */
  lemma LeaseGrantedIff(factories: set<ModelId>, s: State, session: SessionId, model: ModelId, s': State,
                        r: Result<Snapshot, ManagerError>)
    requires Consistent(s) && Acquires(factories, s, session, model, s', r)
    ensures r.Success? <==> && model in factories && Resident(s, model)
                            && (s.snapshot.leasedBy == None || s.snapshot.leasedBy == Some(session))
    ensures r.Success? ==>
              r == Success(s'.snapshot) && s' == s.(snapshot := s.snapshot.(leasedBy := Some(session)))
    ensures r.Failure? ==>
              && s' == s
              && (r.error == UnknownModel <==> model !in factories)
              && (r.error == LeaseConflict <==> && model in factories && s.snapshot.leasedBy.Some?
                                                && s.snapshot.leasedBy != Some(session))
              && (r.error == NotReady || r.error == UnknownModel || r.error == LeaseConflict)
  {
  }

  /** Inference is done exactly for the holder, or for nobody on a free lease, on the resident model. */
  lemma InferenceAllowedIff(factories: set<ModelId>, s: State, session: Option<SessionId>, model: ModelId,
                            r: Result<string, ManagerError>, during: Stretch)
    requires Consistent(s) && Transcribes(factories, s, session, model, r, during)
    ensures during.Then? <==> model in factories && s.snapshot.leasedBy == session && Resident(s, model)
    ensures during.Then? ==> during.before == Start && during.act.Inferred? && s.provider == Some(during.act.provider)
                             && during.act.session == session && during.act.model == model
    ensures r == Failure(UnknownModel) <==> model !in factories
    ensures r == Failure(LeaseConflict) <==> model in factories && s.snapshot.leasedBy != session
    ensures r == Failure(NotReady)
            <==> model in factories && s.snapshot.leasedBy == session && !Resident(s, model)
  {
  }
}

/** The single-resident speech model: activation with rollback under faults, and the realtime lease. */
module ModelManager {
  import opened Wrappers

  type ModelId = string
  type SessionId = string

  datatype LoadState = Idle | Unloading | Loading | Warming | Ready | Failed | RollingBack

  datatype Snapshot = Snapshot(
    state: LoadState,
    active: Option<ModelId>,
    requested: Option<ModelId>,
    leasedBy: Option<SessionId>,
    device: string,
    error: Option<ManagerError>)

  datatype ManagerError = UnknownModel | LeaseConflict | NotReady | ActivationFailed | RollbackFailed | InferenceFailed

  /** A provider object; `serial` is its identity. */
  datatype Provider = Provider(serial: nat, model: ModelId, device: string)

  // ---------- what happens to providers ----------

  datatype Act =
    | Published(snapshot: Snapshot)
    | Loaded(provider: Provider)
    | LoadFailed(model: ModelId)
    | Warmed(provider: Provider, ok: bool)
    | Closed(provider: Provider, ok: bool)
    | Inferred(session: Option<SessionId>, model: ModelId, provider: Provider, text: Option<string>)

  /** What happened during one call: each action, and the providers that hold memory right after it. */
  datatype Stretch = Start | Then(before: Stretch, act: Act, live: set<nat>)

  /** A call that raised. */
  predicate Raised(a: Act) {
    a.LoadFailed? || (a.Warmed? && !a.ok) || (a.Closed? && !a.ok)
  }

  /** Loading or warming this model raised. */
  function BrokenBy(a: Act): set<ModelId> {
    match a
    case LoadFailed(model) => {model}
    case Warmed(p, false) => {p.model}
    case _ => {}
  }

  function WarmedBy(a: Act): set<Provider> {
    match a
    case Warmed(p, true) => {p}
    case _ => {}
  }

  predicate Clean(d: Stretch) {
    d.Then? ==> Clean(d.before) && !Raised(d.act)
  }

  /** The models whose loading or warming raised. */
  function Broken(d: Stretch): set<ModelId> {
    if d.Start? then {} else Broken(d.before) + BrokenBy(d.act)
  }

  function Warm(d: Stretch): set<Provider> {
    if d.Start? then {} else Warm(d.before) + WarmedBy(d.act)
  }

  predicate AtMostOneLive(d: Stretch) {
    d.Then? ==> AtMostOneLive(d.before) && |d.live| <= 1
  }

  /** A poll that says ready sees one live provider, already warmed, of the active model. */
  predicate HonestPolls(d: Stretch) {
    d.Then? ==> HonestPolls(d.before) && (d.act.Published? ==> HonestPoll(Warm(d.before), d.act.snapshot, d.live))
  }

  predicate HonestPoll(warm: set<Provider>, poll: Snapshot, live: set<nat>) {
    poll.state.Ready? ==>
      exists p :: p in warm && live == {p.serial} && poll.active == Some(p.model) && poll.device == p.device
  }

  /** What a poller can see, in order: the state, the models it names, and the error. */
  datatype Seen = Nothing | Later(before: Seen, view: Glimpse)

  datatype Glimpse = Glimpse(
    state: LoadState,
    active: Option<ModelId>,
    requested: Option<ModelId>,
    error: Option<ManagerError>)

  function GlimpseOf(s: Snapshot): Glimpse {
    Glimpse(s.state, s.active, s.requested, s.error)
  }

  function Shown(d: Stretch): Seen {
    if d.Start? then Nothing
    else if d.act.Published? then Later(Shown(d.before), GlimpseOf(d.act.snapshot))
    else Shown(d.before)
  }

  /** How far loading the requested model got. */
  datatype Attempt = NotTried | LoadTried | WarmTried

  function Attempted(shown: Seen, model: ModelId, attempt: Attempt): Seen {
    match attempt
    case NotTried => shown
    case LoadTried => Later(shown, Glimpse(Loading, None, Some(model), None))
    case WarmTried =>
      Later(Later(shown, Glimpse(Loading, None, Some(model), None)), Glimpse(Warming, None, Some(model), None))
  }

  /** The unloading of what was resident, which is still named as active. */
  function Unloaded(resident: Option<ModelId>, model: ModelId): Seen {
    if resident.Some? then Later(Nothing, Glimpse(Unloading, resident, Some(model), None)) else Nothing
  }

  function Recovered(shown: Seen, resident: Option<ModelId>, model: ModelId, back: bool): Seen {
    if resident.None? then Later(shown, Glimpse(Failed, None, None, Some(ActivationFailed)))
    else Later(Later(shown, Glimpse(RollingBack, None, Some(model), Some(ActivationFailed))),
               if back then Glimpse(Ready, resident, None, Some(ActivationFailed))
               else Glimpse(Failed, None, None, Some(RollbackFailed)))
  }

  function Announcements(resident: Option<ModelId>, model: ModelId, attempt: Attempt,
                         r: Result<Snapshot, ManagerError>): Seen {
    var tried := Attempted(Unloaded(resident, model), model, attempt);
    if r.Success? then Later(tried, Glimpse(Ready, Some(model), None, None))
    else Recovered(tried, resident, model, r == Failure(ActivationFailed))
  }

  /** Pollers see the unloading of what was resident, the attempt, and then how it ended. */
  predicate Announced(shown: Seen, resident: Option<ModelId>, model: ModelId, r: Result<Snapshot, ManagerError>) {
    || shown == Announcements(resident, model, WarmTried, r)
    || (!r.Success? && shown == Announcements(resident, model, LoadTried, r))
    || (!r.Success? && resident.Some? && shown == Announcements(resident, model, NotTried, r))
  }

  /** At most one live provider and honest polls all along, this cleanness, these models broken. */
  ghost predicate Shows(d: Stretch, clean: bool, broken: set<ModelId>) {
    && AtMostOneLive(d) && HonestPolls(d)
    && (Clean(d) <==> clean) && Broken(d) == broken
  }

  // ---------- the manager as a value ----------

  datatype State = State(provider: Option<Provider>, active: Option<ModelId>, snapshot: Snapshot, live: set<nat>,
                         warmed: set<nat>)

  ghost predicate Serving(s: State, model: ModelId) {
    && s.provider.Some? && s.provider.value.model == model
    && s.live == {s.provider.value.serial} && s.provider.value.serial in s.warmed
    && s.active == Some(model)
    && s.snapshot.state.Ready? && s.snapshot.active == Some(model) && s.snapshot.requested == None
    && s.snapshot.device == s.provider.value.device
  }

  ghost predicate Empty(s: State) {
    && s.provider == None && s.active == None && s.live == {}
    && s.snapshot.active == None && s.snapshot.requested == None && s.snapshot.leasedBy == None
    && (s.snapshot.state.Idle? || s.snapshot.state.Failed?)
  }

  /** Whenever the lock is free: ready exactly with one warmed provider of the active model, and only then leased. */
  ghost predicate Consistent(s: State) {
    Empty(s) || (s.active.Some? && Serving(s, s.active.value))
  }

  /** What a call of `activate` may do, given everything that happened to providers during it. */
  ghost predicate Activates(factories: set<ModelId>, s: State, model: ModelId, s': State,
                            r: Result<Snapshot, ManagerError>, during: Stretch)
  {
    if model !in factories then r == Failure(UnknownModel) && s' == s && during == Start
    else if s.snapshot.leasedBy.Some? && s.active != Some(model) then
      r == Failure(LeaseConflict) && s' == s && during == Start
    else if s.active == Some(model) then r == Success(s.snapshot) && s' == s && during == Start
    else Switches(s, model, s', r, during)
  }

  ghost predicate Switches(s: State, model: ModelId, s': State, r: Result<Snapshot, ManagerError>, during: Stretch) {
    && AtMostOneLive(during) && HonestPolls(during) && Announced(Shown(during), s.active, model, r)
    && during.Then? && during.act == Published(s'.snapshot) && during.live == s'.live
    && s'.snapshot.leasedBy == s.snapshot.leasedBy
    && (r.Success? <==> Clean(during))
    && (r == Failure(RollbackFailed) <==> s.active.Some? && s.active.value in Broken(during))
    && match r
       case Success(snapshot) =>
         snapshot == s'.snapshot && Serving(s', model) && s'.snapshot.error == None
       case Failure(ActivationFailed) =>
         s'.snapshot.error == Some(ActivationFailed)
         && if s.active.Some? then Serving(s', s.active.value) else Empty(s') && s'.snapshot.state.Failed?
       case Failure(RollbackFailed) =>
         s'.snapshot.error == Some(RollbackFailed) && Empty(s') && s'.snapshot.state.Failed?
       case _ => false
  }

  lemma SwitchSucceeded(s: State, model: ModelId, s': State, r: Result<Snapshot, ManagerError>, during: Stretch)
    requires Consistent(s) && s.snapshot.leasedBy == None && s.active != Some(model)
    requires during.Then? && during.act == Published(s'.snapshot) && during.live == s'.live
    requires Shows(during, true, {}) && Shown(during) == Announcements(s.active, model, WarmTried, r)
    requires r == Success(s'.snapshot) && Serving(s', model) && s'.snapshot.error == None
             && s'.snapshot.leasedBy == None
    ensures Switches(s, model, s', r, during)
  {
  }

  lemma SwitchFailed(s: State, model: ModelId, s': State, r: Result<Snapshot, ManagerError>, during: Stretch,
                     attempt: Attempt)
    requires s.snapshot.leasedBy == None && s'.snapshot.leasedBy == None
    requires during.Then? && during.act == Published(s'.snapshot) && during.live == s'.live
    requires AtMostOneLive(during) && HonestPolls(during) && !Clean(during)
    requires Shown(during) == Announcements(s.active, model, attempt, r) && (s.active.None? ==> attempt != NotTried)
    requires s'.snapshot.error.Some? && r == Failure(s'.snapshot.error.value)
    requires r == Failure(ActivationFailed) || r == Failure(RollbackFailed)
    requires r == Failure(RollbackFailed) <==> s.active.Some? && s.active.value in Broken(during)
    requires if r == Failure(ActivationFailed) && s.active.Some? then Serving(s', s.active.value)
             else Empty(s') && s'.snapshot.state.Failed?
    ensures Switches(s, model, s', r, during)
  {
  }

  ghost predicate Acquires(factories: set<ModelId>, s: State, session: SessionId, model: ModelId, s': State,
                           r: Result<Snapshot, ManagerError>) {
    if model !in factories then r == Failure(UnknownModel) && s' == s
    else if s.snapshot.leasedBy.Some? && s.snapshot.leasedBy != Some(session) then
      r == Failure(LeaseConflict) && s' == s
    else if s.active != Some(model) then r == Failure(NotReady) && s' == s
    else s' == s.(snapshot := s.snapshot.(leasedBy := Some(session))) && r == Success(s'.snapshot)
  }

  ghost predicate Releases(s: State, session: SessionId, s': State) {
    s' == if s.snapshot.leasedBy == Some(session) then s.(snapshot := s.snapshot.(leasedBy := None)) else s
  }

  ghost predicate Transcribes(factories: set<ModelId>, s: State, session: Option<SessionId>, model: ModelId,
                              r: Result<string, ManagerError>, during: Stretch)
  {
    if model !in factories then r == Failure(UnknownModel) && during == Start
    else if s.snapshot.leasedBy != session then r == Failure(LeaseConflict) && during == Start
    else if s.active != Some(model) || s.provider.None? then r == Failure(NotReady) && during == Start
    else
      && during.Then? && during.act.Inferred?
      && during == Then(Start, Inferred(session, model, s.provider.value, during.act.text), s.live)
      && r == Answered(during.act.text)
  }

  /** The provider's text, or the failure when it raised. */
  function Answered(text: Option<string>): Result<string, ManagerError> {
    match text
    case Some(t) => Success(t)
    case None => Failure(InferenceFailed)
  }

  /** A transcription succeeds with exactly what a provider answered, and fails in inference exactly when one raised. */
  lemma TranscribeReturnsTheAnswer(factories: set<ModelId>, s: State, session: Option<SessionId>, model: ModelId,
                                   r: Result<string, ManagerError>, during: Stretch)
    requires Transcribes(factories, s, session, model, r, during)
    ensures forall t :: r == Success(t)
                        <==> during.Then? && during.act.Inferred? && during.act.text == Some(t)
    ensures r == Failure(InferenceFailed) <==> during.Then? && during.act.Inferred? && during.act.text == None
  {
  }

  lemma StretchGrows(d: Stretch, act: Act, live: set<nat>, clean: bool, broken: set<ModelId>)
    requires Shows(d, clean, broken) && |live| <= 1 && !act.Published? && BrokenBy(act) == {}
    ensures Shows(Then(d, act, live), clean && !Raised(act), broken)
    ensures Warm(Then(d, act, live)) == Warm(d) + WarmedBy(act) && Shown(Then(d, act, live)) == Shown(d)
  {
  }

  lemma StretchBreaks(d: Stretch, act: Act, live: set<nat>, clean: bool, broken: set<ModelId>, model: ModelId)
    requires Shows(d, clean, broken) && |live| <= 1 && !act.Published? && BrokenBy(act) == {model}
    ensures Shows(Then(d, act, live), false, broken + {model})
    ensures Warm(Then(d, act, live)) == Warm(d) && Shown(Then(d, act, live)) == Shown(d)
  {
  }

  // ---------- the environment ----------

  /** The inference runtime. Loading, warming, closing and inference may each raise; a close that raises still
      releases. */
  class Runtime {
    var live: set<nat>
    var warmed: set<nat>
    var made: nat
    /** What happened since the current call of the manager began. */
    ghost var during: Stretch

    ghost predicate Valid()
      reads this
    {
      forall n :: n in live || n in warmed ==> n < made
    }

    constructor ()
      ensures Valid() && live == {} && warmed == {}
    {
      live, warmed, made, during := {}, {}, 0, Start;
    }

    ghost method Begin()
      modifies this`during
      ensures during == Start && Shows(during, true, {})
    {
      during := Start;
    }

    ghost method Record(act: Act)
      modifies this`during
      ensures during == Then(old(during), act, live)
    {
      during := Then(during, act, live);
    }

    method NewProvider(model: ModelId) returns (p: Provider)
      requires Valid()
      modifies this`live, this`made
      ensures Valid() && p.model == model && p.serial !in old(live) && live == old(live) + {p.serial}
    {
      var device: string := *;
      p := Provider(made, model, device);
      made := made + 1;
      live := live + {p.serial};
    }

    method Load(model: ModelId, ghost clean: bool, ghost broken: set<ModelId>) returns (p: Option<Provider>)
      requires Valid() && live == {} && Shows(during, clean, broken)
      modifies this
      ensures Valid() && warmed == old(warmed) && Warm(during) == Warm(old(during))
              && Shown(during) == Shown(old(during))
      ensures Shows(during, clean && p.Some?, if p.Some? then broken else broken + {model})
      ensures match p
              case Some(q) => q.model == model && live == {q.serial}
              case None => live == {}
    {
      var raises: bool := *;
      if raises {
        StretchBreaks(during, LoadFailed(model), live, clean, broken, model);
        Record(LoadFailed(model));
        return None;
      }
      var q := NewProvider(model);
      assert live == {q.serial};
      StretchGrows(during, Loaded(q), live, clean, broken);
      Record(Loaded(q));
      p := Some(q);
    }

    method WarmUp(p: Provider, ghost clean: bool, ghost broken: set<ModelId>) returns (ok: bool)
      requires Valid() && live == {p.serial} && Shows(during, clean, broken)
      modifies this`warmed, this`during
      ensures Valid()
      ensures Shows(during, clean && ok, if ok then broken else broken + {p.model})
              && Shown(during) == Shown(old(during))
      ensures ok ==> p.serial in warmed && p in Warm(during)
    {
      ok := *;
      if ok {
        warmed := warmed + {p.serial};
      }
      if ok {
        StretchGrows(during, Warmed(p, ok), live, clean, broken);
      } else {
        StretchBreaks(during, Warmed(p, ok), live, clean, broken, p.model);
      }
      Record(Warmed(p, ok));
    }

    method Close(p: Provider, ghost clean: bool, ghost broken: set<ModelId>) returns (ok: bool)
      requires Valid() && live == {p.serial} && Shows(during, clean, broken)
      modifies this`live, this`during
      ensures Valid() && live == {}
      ensures Shows(during, clean && ok, broken) && Shown(during) == Shown(old(during))
    {
      ok := *;
      live := live - {p.serial};
      StretchGrows(during, Closed(p, ok), live, clean, broken);
      Record(Closed(p, ok));
    }

    method Infer(session: Option<SessionId>, model: ModelId, p: Provider) returns (text: Option<string>)
      modifies this`during
      ensures during == Then(old(during), Inferred(session, model, p, text), live)
    {
      text := *;
      Record(Inferred(session, model, p, text));
    }
  }

  // ---------- the manager ----------

  class ASRModelManager {
    const factories: set<ModelId>
    const configuredDevice: string
    const runtime: Runtime
    var provider: Option<Provider>
    var activeModel: Option<ModelId>
    var snapshot: Snapshot

    ghost function View(): State
      reads this, runtime
    {
      State(provider, activeModel, snapshot, runtime.live, runtime.warmed)
    }

    ghost predicate Valid()
      reads this, runtime
    {
      runtime.Valid() && Consistent(View())
    }

    constructor (factories: set<ModelId>, device: string, runtime: Runtime)
      requires runtime.Valid() && runtime.live == {}
      ensures Valid() && this.factories == factories && this.runtime == runtime
      ensures Empty(View()) && snapshot.state.Idle?
    {
      this.factories, this.configuredDevice, this.runtime := factories, device, runtime;
      provider, activeModel := None, None;
      snapshot := Snapshot(Idle, None, None, None, device, None);
    }

    method Publish(state: LoadState, active: Option<ModelId>, requested: Option<ModelId>, error: Option<ManagerError>,
                   device: string, ghost clean: bool, ghost broken: set<ModelId>)
      requires Shows(runtime.during, clean, broken) && |runtime.live| <= 1
      requires state.Ready? ==> exists p :: && p in Warm(runtime.during) && runtime.live == {p.serial}
                                            && active == Some(p.model) && device == p.device
      modifies this`snapshot, runtime`during
      ensures snapshot == Snapshot(state, active, requested, old(snapshot.leasedBy), device, error)
      ensures runtime.during == Then(old(runtime.during), Published(snapshot), runtime.live)
      ensures Shows(runtime.during, clean, broken)
              && Shown(runtime.during) == Later(Shown(old(runtime.during)), Glimpse(state, active, requested, error))
    {
      snapshot := Snapshot(state, active, requested, snapshot.leasedBy, device, error);
      runtime.Record(Published(snapshot));
    }

    /** Takes the previous provider out of service. */
    method Unload(model: ModelId) returns (ok: bool)
      requires runtime.Valid() && provider.Some? && runtime.live == {provider.value.serial}
               && Shows(runtime.during, true, {})
      modifies this, runtime
      ensures runtime.Valid() && provider == None && activeModel == None && runtime.live == {}
      ensures snapshot.leasedBy == old(snapshot.leasedBy)
      ensures Shows(runtime.during, ok, {})
              && Shown(runtime.during)
                 == Later(Shown(old(runtime.during)), Glimpse(Unloading, old(activeModel), Some(model), None))
    {
      Publish(Unloading, activeModel, Some(model), None, configuredDevice, true, {});
      var previous := provider.value;
      provider, activeModel := None, None;
      ok := runtime.Close(previous, true, {});
    }

    /** Creates and warms a provider; when that raises, whatever was created is closed again. */
    method LoadAndWarm(model: ModelId, announced: bool, ghost clean: bool, ghost broken: set<ModelId>)
      returns (p: Option<Provider>, ghost attempt: Attempt)
      requires runtime.Valid() && runtime.live == {} && Shows(runtime.during, clean, broken)
      modifies this`snapshot, runtime
      ensures runtime.Valid() && snapshot.leasedBy == old(snapshot.leasedBy)
      ensures Shows(runtime.during, clean && p.Some?, if p.Some? then broken else broken + {model})
      ensures !announced ==> Shown(runtime.during) == Shown(old(runtime.during))
      ensures announced ==> Shown(runtime.during) == Attempted(Shown(old(runtime.during)), model, attempt)
      ensures attempt != NotTried && (p.Some? ==> attempt == WarmTried)
      ensures match p
              case Some(q) =>
                && q.model == model && runtime.live == {q.serial}
                && q.serial in runtime.warmed && q in Warm(runtime.during)
              case None => runtime.live == {}
    {
      attempt := LoadTried;
      if announced {
        Publish(Loading, None, Some(model), None, configuredDevice, clean, broken);
      }
      p := runtime.Load(model, clean, broken);
      if p.None? {
        return;
      }
      attempt := WarmTried;
      if announced {
        Publish(Warming, None, Some(model), None, p.value.device, clean, broken);
      }
      var ok := runtime.WarmUp(p.value, clean, broken);
      if !ok {
        var closed := runtime.Close(p.value, false, broken + {model});
        p := None;
      }
    }

    method Activate(model: ModelId) returns (r: Result<Snapshot, ManagerError>)
      requires Valid()
      modifies this, runtime
      ensures Valid()
      ensures Activates(factories, old(View()), model, View(), r, runtime.during)
    {
      runtime.Begin();
      if model !in factories {
        return Failure(UnknownModel);
      }
      if snapshot.leasedBy.Some? && activeModel != Some(model) {
        return Failure(LeaseConflict);
      }
      if provider.Some? && activeModel == Some(model) && snapshot.state.Ready? {
        return Success(snapshot);
      }
      r := Switch(model);
    }

    /** The try block of an activation: unload what is resident, then load and warm the requested model. */
    method Replace(model: ModelId)
        returns (candidate: Option<Provider>, ghost broken: set<ModelId>, ghost attempt: Attempt)
      requires Valid() && activeModel != Some(model) && runtime.during == Start
      modifies this, runtime
      ensures runtime.Valid() && provider == None && activeModel == None
      ensures snapshot.leasedBy == old(snapshot.leasedBy)
      ensures Shows(runtime.during, candidate.Some?, broken) && broken <= {model}
      ensures Shown(runtime.during)
              == Attempted(Unloaded(old(activeModel), model), model, attempt)
      ensures (candidate.Some? ==> attempt == WarmTried) && (old(activeModel).None? ==> attempt != NotTried)
      ensures match candidate
              case Some(q) =>
                && q.model == model && runtime.live == {q.serial} && broken == {}
                && q.serial in runtime.warmed && q in Warm(runtime.during)
              case None => runtime.live == {}
    {
      candidate, broken, attempt := None, {}, NotTried;
      if provider.Some? {
        var ok := Unload(model);
        if !ok {
          return;
        }
      }
      candidate, attempt := LoadAndWarm(model, true, true, {});
      broken := if candidate.Some? then {} else {model};
    }

    method Switch(model: ModelId) returns (r: Result<Snapshot, ManagerError>)
      requires Valid() && activeModel != Some(model) && runtime.during == Start && snapshot.leasedBy == None
      modifies this, runtime
      ensures Valid()
      ensures Switches(old(View()), model, View(), r, runtime.during)
    {
      var previousModel := activeModel;
      ghost var broken, attempt;
      var candidate;
      candidate, broken, attempt := Replace(model);
      if candidate.Some? {
        provider, activeModel := candidate, Some(model);
        Publish(Ready, Some(model), None, None, candidate.value.device, true, {});
        r := Success(snapshot);
        SwitchSucceeded(old(View()), model, View(), r, runtime.during);
        return;
      }
      r := Recover(previousModel, model, broken);
      SwitchFailed(old(View()), model, View(), r, runtime.during, attempt);
    }

    /** The exception handler of an activation. */
    method Recover(previousModel: Option<ModelId>, model: ModelId, ghost broken: set<ModelId>)
        returns (r: Result<Snapshot, ManagerError>)
      requires runtime.Valid() && runtime.live == {} && Shows(runtime.during, false, broken)
      requires provider == None && activeModel == None && snapshot.leasedBy == None
      requires previousModel.Some? ==> previousModel.value !in broken
      modifies this, runtime
      ensures Valid() && snapshot.leasedBy == None && snapshot.error.Some? && r == Failure(snapshot.error.value)
      ensures runtime.during.Then? && runtime.during.act == Published(snapshot) && runtime.during.live == runtime.live
      ensures AtMostOneLive(runtime.during) && HonestPolls(runtime.during) && !Clean(runtime.during)
      ensures Shown(runtime.during)
              == Recovered(Shown(old(runtime.during)), previousModel, model, r == Failure(ActivationFailed))
      ensures r == Failure(RollbackFailed) <==> previousModel.Some? && previousModel.value in Broken(runtime.during)
      ensures r == Failure(ActivationFailed) || r == Failure(RollbackFailed)
      ensures if r == Failure(ActivationFailed) && previousModel.Some? then Serving(View(), previousModel.value)
              else Empty(View()) && snapshot.state.Failed?
    {
      if previousModel.None? {
        Publish(Failed, None, None, Some(ActivationFailed), configuredDevice, false, broken);
        return Failure(ActivationFailed);
      }
      Publish(RollingBack, None, Some(model), Some(ActivationFailed), configuredDevice, false, broken);
      r := Rollback(previousModel.value, broken);
    }

    method Rollback(previousModel: ModelId, ghost broken: set<ModelId>) returns (r: Result<Snapshot, ManagerError>)
      requires runtime.Valid() && runtime.live == {} && Shows(runtime.during, false, broken)
      requires provider == None && activeModel == None && snapshot.leasedBy == None
      modifies this, runtime
      ensures Valid() && snapshot.leasedBy == None && snapshot.error.Some? && r == Failure(snapshot.error.value)
      ensures runtime.during.Then? && runtime.during.act == Published(snapshot) && runtime.during.live == runtime.live
      ensures Shown(runtime.during)
              == Later(Shown(old(runtime.during)),
                       if r == Failure(ActivationFailed)
                       then Glimpse(Ready, Some(previousModel), None, Some(ActivationFailed))
                       else Glimpse(Failed, None, None, Some(RollbackFailed)))
      ensures if r == Failure(ActivationFailed)
              then Serving(View(), previousModel) && Shows(runtime.during, false, broken)
              else r == Failure(RollbackFailed) && Empty(View()) && snapshot.state.Failed?
                   && Shows(runtime.during, false, broken + {previousModel})
    {
      ghost var attempt;
      var candidate;
      candidate, attempt := LoadAndWarm(previousModel, false, false, broken);
      provider := candidate;
      if candidate.Some? {
        activeModel := Some(previousModel);
        Publish(Ready, Some(previousModel), None, Some(ActivationFailed), candidate.value.device, false, broken);
        r := Failure(ActivationFailed);
      } else {
        Publish(Failed, None, None, Some(RollbackFailed), configuredDevice, false, broken + {previousModel});
        r := Failure(RollbackFailed);
      }
    }

    method Acquire(session: SessionId, model: ModelId) returns (r: Result<Snapshot, ManagerError>)
      requires Valid()
      modifies this`snapshot
      ensures Valid()
      ensures Acquires(factories, old(View()), session, model, View(), r)
    {
      if model !in factories {
        return Failure(UnknownModel);
      }
      if snapshot.leasedBy.Some? && snapshot.leasedBy != Some(session) {
        return Failure(LeaseConflict);
      }
      if provider.None? || activeModel != Some(model) || !snapshot.state.Ready? {
        return Failure(NotReady);
      }
      snapshot := snapshot.(leasedBy := Some(session));
      r := Success(snapshot);
    }

    method Release(session: SessionId) returns (r: Snapshot)
      requires Valid()
      modifies this`snapshot
      ensures Valid()
      ensures Releases(old(View()), session, View()) && r == snapshot
    {
      if snapshot.leasedBy == Some(session) {
        snapshot := snapshot.(leasedBy := None);
      }
      r := snapshot;
    }

    method Transcribe(session: Option<SessionId>, model: ModelId) returns (r: Result<string, ManagerError>)
      requires Valid()
      modifies runtime`during
      ensures Valid() && View() == old(View())
      ensures Transcribes(factories, View(), session, model, r, runtime.during)
      ensures match r
              case Success(t) =>
                runtime.during.Then? && runtime.during.act.Inferred? && runtime.during.act.text == Some(t)
              case Failure(e) =>
                e == InferenceFailed <==>
                runtime.during.Then? && runtime.during.act.Inferred? && runtime.during.act.text == None
    {
      runtime.Begin();
      if model !in factories {
        return Failure(UnknownModel);
      }
      if snapshot.leasedBy.Some? && snapshot.leasedBy != session {
        return Failure(LeaseConflict);
      }
      if session.Some? && snapshot.leasedBy != session {
        return Failure(LeaseConflict);
      }
      if provider.None? || activeModel != Some(model) || !snapshot.state.Ready? {
        return Failure(NotReady);
      }
      var text := runtime.Infer(session, model, provider.value);
      match text
      case Some(t) => r := Success(t);
      case None => r := Failure(InferenceFailed);
    }
  }
}

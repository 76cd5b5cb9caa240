/**
 * `ConnectionManager::connect` and `disconnect` under concurrency, one step per critical section or
 * driver call. A connect runs under an id of its own, so the id names the call. Three maps with
 * three locks are touched: the attempt counters, the sessions, and the entries that clients see.
 *
 * The system has a state and actions of its own, so the small lemmas about runs (`Reaches`, `Extend`
 * and their like) stand here once more, next to those of `InsertProtocol`.
 */
module ConnectProtocol {
  import opened Wrappers
  import opened ConnectionAttempts
  import opened Sessions

  type Driver = nat
  type CallId = nat

  /** Where a running `connect` is; `Replacing` still has to disconnect the session it displaced. */
  datatype Phase =
    | Dialing
    | Dialed
    | Checked
    | Locked
    | Cleared
    | Orphaned
    | Replacing(previous: Driver)
    | Installed

  datatype Attempt = Attempt(driver: Driver, generation: Generation, phase: Phase)

  datatype ClosingPhase = RemovingSession | Forgetting | ClosingDriver

  /** A running `disconnect` of `id`, with the driver it took out of the entries, if any. */
  datatype Closing = Closing(id: Uuid, entry: Option<Driver>, phase: ClosingPhase)

  /**
   * The manager's three maps and its session lock, the running calls, and history: for whom each
   * driver was made, which drivers connected, every driver `disconnect` call, the ids minted, the ids
   * published to clients, and the ids whose driver failed to connect.
   */
  datatype State = State(
    generations: Generations,
    sessions: map<Uuid, Driver>,
    entries: map<Uuid, Driver>,
    holder: Option<Uuid>,
    attempts: map<Uuid, Attempt>,
    closings: map<CallId, Closing>,
    made: map<Driver, Uuid>,
    live: set<Driver>,
    closed: multiset<Driver>,
    used: set<Uuid>,
    learned: set<Uuid>,
    failed: set<Uuid>)

  datatype Action =
    | StartConnect(id: Uuid, driver: Driver)
    | DialFails(id: Uuid)
    | DialSucceeds(id: Uuid)
    | FirstCheck(id: Uuid)
    | TakeLock(id: Uuid)
    | Recheck(id: Uuid)
    | Install(id: Uuid)
    | DropOrphan(id: Uuid)
    | DropPrevious(id: Uuid)
    | Publish(id: Uuid)
    | StartDisconnect(call: CallId, target: Uuid)
    | RemoveSession(call: CallId)
    | ForgetAttempt(call: CallId)
    | CloseDriver(call: CallId)

  ghost const Initial := State(map[], map[], map[], None, map[], map[], map[], {}, multiset{}, {}, {}, {})

  ghost predicate At(s: State, id: Uuid, phase: Phase) {
    id in s.attempts && s.attempts[id].phase == phase
  }

  ghost predicate ClosingAt(s: State, call: CallId, phase: ClosingPhase) {
    call in s.closings && s.closings[call].phase == phase
  }

  ghost predicate Enabled(s: State, a: Action) {
    match a
    case StartConnect(id, driver) => id !in s.used && driver !in s.made
    case DialFails(id) => At(s, id, Dialing)
    case DialSucceeds(id) => At(s, id, Dialing)
    case FirstCheck(id) => At(s, id, Dialed)
    case TakeLock(id) => At(s, id, Checked) && s.holder == None
    case Recheck(id) => At(s, id, Locked)
    case Install(id) => At(s, id, Cleared)
    case DropOrphan(id) => At(s, id, Orphaned)
    case DropPrevious(id) => id in s.attempts && s.attempts[id].phase.Replacing?
    case Publish(id) => At(s, id, Installed)
    case StartDisconnect(call, _) => call !in s.closings
    case RemoveSession(call) => ClosingAt(s, call, RemovingSession) && s.holder == None
    case ForgetAttempt(call) => ClosingAt(s, call, Forgetting)
    case CloseDriver(call) => ClosingAt(s, call, ClosingDriver)
  }

  ghost function Moved(s: State, id: Uuid, phase: Phase): State
    requires id in s.attempts
  {
    s.(attempts := s.attempts[id := s.attempts[id].(phase := phase)])
  }

  ghost function MovedClosing(s: State, call: CallId, phase: ClosingPhase): State
    requires call in s.closings
  {
    s.(closings := s.closings[call := s.closings[call].(phase := phase)])
  }

  ghost predicate StillCurrent(s: State, id: Uuid)
    requires id in s.attempts
  {
    Current(s.generations, AttemptToken(id, s.attempts[id].generation))
  }

  ghost function DoStartConnect(s: State, id: Uuid, driver: Driver): State {
    s.(generations := Bump(s.generations, id), made := s.made[driver := id], used := s.used + {id},
       attempts := s.attempts[id := Attempt(driver, NextGeneration(s.generations, id), Dialing)])
  }

  ghost function DoDialFails(s: State, id: Uuid): State {
    s.(generations := Bump(s.generations, id), attempts := s.attempts - {id}, failed := s.failed + {id})
  }

  ghost function DoDialSucceeds(s: State, id: Uuid): State
    requires id in s.attempts
  {
    Moved(s, id, Dialed).(live := s.live + {s.attempts[id].driver})
  }

  ghost function DoRecheck(s: State, id: Uuid): State
    requires id in s.attempts
  {
    if StillCurrent(s, id) then Moved(s, id, Cleared) else Moved(s, id, Orphaned).(holder := None)
  }

  ghost function DoInstall(s: State, id: Uuid): State
    requires id in s.attempts
  {
    var next := if id in s.sessions then Replacing(s.sessions[id]) else Installed;
    Moved(s, id, next).(sessions := s.sessions[id := s.attempts[id].driver], holder := None)
  }

  ghost function DoDropOrphan(s: State, id: Uuid): State
    requires id in s.attempts
  {
    s.(closed := s.closed + multiset{s.attempts[id].driver}, attempts := s.attempts - {id})
  }

  ghost function DoDropPrevious(s: State, id: Uuid): State
    requires id in s.attempts && s.attempts[id].phase.Replacing?
  {
    Moved(s, id, Installed).(closed := s.closed + multiset{s.attempts[id].phase.previous})
  }

  ghost function DoPublish(s: State, id: Uuid): State
    requires id in s.attempts
  {
    s.(entries := s.entries[id := s.attempts[id].driver], attempts := s.attempts - {id},
       learned := s.learned + {id})
  }

  ghost function DoStartDisconnect(s: State, call: CallId, id: Uuid): State {
    s.(closings := s.closings[call := Closing(id, Lookup(s.entries, id), RemovingSession)],
       entries := s.entries - {id})
  }

  ghost function DoRemoveSession(s: State, call: CallId): State
    requires call in s.closings
  {
    MovedClosing(s, call, Forgetting).(sessions := s.sessions - {s.closings[call].id})
  }

  ghost function DoForgetAttempt(s: State, call: CallId): State
    requires call in s.closings
  {
    MovedClosing(s, call, ClosingDriver).(generations := s.generations - {s.closings[call].id})
  }

  ghost function DoCloseDriver(s: State, call: CallId): State
    requires call in s.closings
  {
    var entry := s.closings[call].entry;
    s.(closings := s.closings - {call},
       closed := s.closed + if entry.Some? then multiset{entry.value} else multiset{})
  }

  ghost function Step(s: State, a: Action): State
    requires Enabled(s, a)
  {
    match a
    case StartConnect(id, driver) => DoStartConnect(s, id, driver)
    case DialFails(id) => DoDialFails(s, id)
    case DialSucceeds(id) => DoDialSucceeds(s, id)
    case FirstCheck(id) => Moved(s, id, if StillCurrent(s, id) then Checked else Orphaned)
    case TakeLock(id) => Moved(s, id, Locked).(holder := Some(id))
    case Recheck(id) => DoRecheck(s, id)
    case Install(id) => DoInstall(s, id)
    case DropOrphan(id) => DoDropOrphan(s, id)
    case DropPrevious(id) => DoDropPrevious(s, id)
    case Publish(id) => DoPublish(s, id)
    case StartDisconnect(call, id) => DoStartDisconnect(s, call, id)
    case RemoveSession(call) => DoRemoveSession(s, call)
    case ForgetAttempt(call) => DoForgetAttempt(s, call)
    case CloseDriver(call) => DoCloseDriver(s, call)
  }

  ghost function Exec(s: State, run: seq<Action>): Option<State>
    decreases |run|
  {
    if run == [] then Some(s)
    else if Enabled(s, run[0]) then Exec(Step(s, run[0]), run[1..])
    else None
  }

  // ----- Who owns a driver -----

  /** Each driver is made for one id, each id has one driver, and the maps only ever hold that one. */
  ghost predicate Paired(s: State) {
    && (forall d, e :: d in s.made && e in s.made && s.made[d] == s.made[e] ==> d == e)
    && (forall d :: d in s.made ==> s.made[d] in s.used)
    && (forall id :: id in s.attempts ==> s.attempts[id].driver in s.made && s.made[s.attempts[id].driver] == id)
    && (forall id :: id in s.sessions ==> s.sessions[id] in s.made && s.made[s.sessions[id]] == id)
    && (forall id :: id in s.entries ==> s.entries[id] in s.made && s.made[s.entries[id]] == id)
    && (forall c :: c in s.closings && s.closings[c].entry.Some? ==>
          s.closings[c].entry.value in s.made && s.made[s.closings[c].entry.value] == s.closings[c].id)
  }

  /** Until a connect installs its driver, no session is stored under its id, so none is displaced. */
  ghost predicate NothingToReplace(s: State) {
    forall id :: id in s.attempts ==>
      && !s.attempts[id].phase.Replacing?
      && (s.attempts[id].phase != Installed ==> id !in s.sessions)
  }

  ghost predicate HeldByConnect(s: State, d: Driver) {
    d in s.made && s.made[d] in s.attempts && s.attempts[s.made[d]].driver == d
  }

  ghost predicate InEntries(s: State, d: Driver) {
    d in s.made && s.made[d] in s.entries && s.entries[s.made[d]] == d
  }

  ghost predicate HeldByDisconnect(s: State, d: Driver) {
    exists c :: c in s.closings && s.closings[c].entry == Some(d)
  }

  ghost predicate OneDisconnect(s: State, d: Driver) {
    forall c, e ::
      c in s.closings && e in s.closings && s.closings[c].entry == Some(d) && s.closings[e].entry == Some(d) ==> c == e
  }

  /** `d` has at most one holder, and none once it has been disconnected, which happens at most once. */
  ghost predicate SingleHolder(s: State, d: Driver) {
    && (HeldByConnect(s, d) ==> !InEntries(s, d) && !HeldByDisconnect(s, d) && d !in s.closed)
    && (InEntries(s, d) ==> !HeldByDisconnect(s, d) && d !in s.closed)
    && (HeldByDisconnect(s, d) ==> d !in s.closed)
    && OneDisconnect(s, d)
    && s.closed[d] <= 1
  }

  /** Once `d` has connected, somebody holds it or it has been disconnected. */
  ghost predicate NotLost(s: State, d: Driver) {
    && (d in s.live || d in s.closed ==> d in s.made)
    && (d in s.live ==> HeldByConnect(s, d) || InEntries(s, d) || HeldByDisconnect(s, d) || d in s.closed)
    && (HeldByConnect(s, d) && s.attempts[s.made[d]].phase == Dialing ==> d !in s.live)
  }

  ghost predicate Sound(s: State) {
    Paired(s) && NothingToReplace(s)
  }

  ghost predicate Owned(s: State, d: Driver) {
    SingleHolder(s, d) && NotLost(s, d)
  }

  lemma StartConnectPaired(s: State, id: Uuid, driver: Driver)
    requires Sound(s) && Enabled(s, StartConnect(id, driver))
    ensures Sound(DoStartConnect(s, id, driver))
  {
  }

  lemma StartConnectOwned(s: State, id: Uuid, driver: Driver, d: Driver)
    requires Sound(s) && Owned(s, d) && Enabled(s, StartConnect(id, driver))
    ensures Owned(DoStartConnect(s, id, driver), d)
  {
  }

  lemma DialFailsSound(s: State, id: Uuid, d: Driver)
    requires Sound(s) && Owned(s, d) && At(s, id, Dialing)
    ensures Sound(DoDialFails(s, id)) && Owned(DoDialFails(s, id), d)
  {
  }

  lemma DialSucceedsSound(s: State, id: Uuid, d: Driver)
    requires Sound(s) && Owned(s, d) && At(s, id, Dialing)
    ensures Sound(DoDialSucceeds(s, id)) && Owned(DoDialSucceeds(s, id), d)
  {
  }

  lemma MovedSound(s: State, id: Uuid, phase: Phase, holder: Option<Uuid>, d: Driver)
    requires Sound(s) && Owned(s, d) && id in s.attempts && id !in s.sessions
    requires !phase.Replacing? && phase != Dialing
    ensures Sound(Moved(s, id, phase).(holder := holder)) && Owned(Moved(s, id, phase).(holder := holder), d)
  {
  }

  lemma InstallSound(s: State, id: Uuid)
    requires Sound(s) && At(s, id, Cleared)
    ensures Sound(DoInstall(s, id))
  {
  }

  lemma InstallOwned(s: State, id: Uuid, d: Driver)
    requires Owned(s, d) && At(s, id, Cleared)
    ensures Owned(DoInstall(s, id), d)
  {
    assert DoInstall(s, id).closings == s.closings;
  }

  lemma DropOrphanSound(s: State, id: Uuid, d: Driver)
    requires Sound(s) && Owned(s, d) && At(s, id, Orphaned)
    ensures Sound(DoDropOrphan(s, id)) && Owned(DoDropOrphan(s, id), d)
  {
  }

  lemma PublishSound(s: State, id: Uuid, d: Driver)
    requires Sound(s) && Owned(s, d) && At(s, id, Installed)
    ensures Sound(DoPublish(s, id)) && Owned(DoPublish(s, id), d)
  {
  }

  lemma StartDisconnectSound(s: State, call: CallId, id: Uuid)
    requires Sound(s) && call !in s.closings
    ensures Sound(DoStartDisconnect(s, call, id))
  {
  }

  lemma StartDisconnectOwned(s: State, call: CallId, id: Uuid, d: Driver)
    requires Sound(s) && Owned(s, d) && call !in s.closings
    ensures Owned(DoStartDisconnect(s, call, id), d)
  {
    var s' := DoStartDisconnect(s, call, id);
    if HeldByDisconnect(s, d) {
      var c :| c in s.closings && s.closings[c].entry == Some(d);
      assert c in s'.closings && s'.closings[c].entry == Some(d);
    } else if InEntries(s, d) && s.made[d] == id {
      assert call in s'.closings && s'.closings[call].entry == Some(d);
    }
  }

  lemma RemoveSessionSound(s: State, call: CallId, d: Driver)
    requires Sound(s) && Owned(s, d) && call in s.closings
    ensures Sound(DoRemoveSession(s, call)) && Owned(DoRemoveSession(s, call), d)
  {
    var s' := DoRemoveSession(s, call);
    if HeldByDisconnect(s, d) {
      var c :| c in s.closings && s.closings[c].entry == Some(d);
      assert c in s'.closings && s'.closings[c].entry == Some(d);
    }
  }

  lemma ForgetAttemptSound(s: State, call: CallId, d: Driver)
    requires Sound(s) && Owned(s, d) && call in s.closings
    ensures Sound(DoForgetAttempt(s, call)) && Owned(DoForgetAttempt(s, call), d)
  {
    var s' := DoForgetAttempt(s, call);
    if HeldByDisconnect(s, d) {
      var c :| c in s.closings && s.closings[c].entry == Some(d);
      assert c in s'.closings && s'.closings[c].entry == Some(d);
    }
  }

  lemma CloseDriverSound(s: State, call: CallId, d: Driver)
    requires Sound(s) && Owned(s, d) && call in s.closings
    ensures Sound(DoCloseDriver(s, call)) && Owned(DoCloseDriver(s, call), d)
  {
    var s' := DoCloseDriver(s, call);
    if HeldByDisconnect(s, d) {
      var c :| c in s.closings && s.closings[c].entry == Some(d);
      assert c == call || (c in s'.closings && s'.closings[c].entry == Some(d));
    }
  }

  lemma SoundStep(s: State, a: Action, d: Driver)
    requires Sound(s) && Owned(s, d) && Enabled(s, a)
    ensures Sound(Step(s, a)) && Owned(Step(s, a), d)
  {
    hide Paired, Owned;
    match a {
      case StartConnect(id, driver) =>
        StartConnectPaired(s, id, driver);
        StartConnectOwned(s, id, driver, d);
      case DialFails(id) => DialFailsSound(s, id, d);
      case DialSucceeds(id) => DialSucceedsSound(s, id, d);
      case FirstCheck(id) =>
        MovedSound(s, id, if StillCurrent(s, id) then Checked else Orphaned, s.holder, d);
      case TakeLock(id) => MovedSound(s, id, Locked, Some(id), d);
      case Recheck(id) =>
        MovedSound(s, id, Cleared, s.holder, d);
        MovedSound(s, id, Orphaned, None, d);
      case Install(id) =>
        InstallSound(s, id);
        InstallOwned(s, id, d);
      case DropOrphan(id) => DropOrphanSound(s, id, d);
      case DropPrevious(id) =>
      case Publish(id) => PublishSound(s, id, d);
      case StartDisconnect(call, id) =>
        StartDisconnectSound(s, call, id);
        StartDisconnectOwned(s, call, id, d);
      case RemoveSession(call) => RemoveSessionSound(s, call, d);
      case ForgetAttempt(call) => ForgetAttemptSound(s, call, d);
      case CloseDriver(call) => CloseDriverSound(s, call, d);
    }
  }

  lemma {:induction false} SoundRun(s: State, run: seq<Action>, d: Driver)
    requires Sound(s) && Owned(s, d) && Exec(s, run).Some?
    ensures Sound(Exec(s, run).value) && Owned(Exec(s, run).value, d)
    decreases |run|
  {
    if run != [] {
      SoundStep(s, run[0], d);
      SoundRun(Step(s, run[0]), run[1..], d);
    }
  }

  /**
   * Over every interleaving of connects and disconnects of any ids: a driver whose own connect
   * succeeded is held by a running connect, or published in the entries, or held by a running
   * disconnect, or has been disconnected; exactly one of these; and never disconnected twice. In
   * particular `get` never hands out a driver that the manager has already disconnected.
   */
  lemma NoDriverLostOrClosedTwice(run: seq<Action>, d: Driver)
    requires Exec(Initial, run).Some?
    ensures var s := Exec(Initial, run).value;
            && SingleHolder(s, d)
            && (d in s.live ==> HeldByConnect(s, d) || InEntries(s, d) || HeldByDisconnect(s, d) || d in s.closed)
            && (forall id :: id in s.entries && s.entries[id] == d ==> d !in s.closed)
  {
    SoundRun(Initial, run, d);
  }

  /** When no call is running, a connected driver is either still published or has been disconnected once. */
  lemma IdleDriverPublishedOrClosed(run: seq<Action>, d: Driver)
    requires Exec(Initial, run).Some?
    requires Exec(Initial, run).value.attempts == map[] && Exec(Initial, run).value.closings == map[]
    requires d in Exec(Initial, run).value.live
    ensures var s := Exec(Initial, run).value;
            InEntries(s, d) <==> s.closed[d] == 0
    ensures Exec(Initial, run).value.closed[d] <= 1
  {
    SoundRun(Initial, run, d);
  }

  /** With an id of its own per connect, no connect ever finds a session to replace. */
  lemma NoSessionDisplaced(run: seq<Action>, id: Uuid)
    requires Exec(Initial, run).Some? && id in Exec(Initial, run).value.attempts
    ensures !Exec(Initial, run).value.attempts[id].phase.Replacing?
  {
    SoundRun(Initial, run, 0);
  }

  // ----- Lockstep, when clients only disconnect ids they were given -----

  /** Every disconnect in `run` is for an id that had been published by then. */
  ghost predicate Polite(s: State, run: seq<Action>)
    requires Exec(s, run).Some?
    decreases |run|
  {
    run == [] ||
    ((run[0].StartDisconnect? ==> run[0].target in s.learned) && Polite(Step(s, run[0]), run[1..]))
  }

  /** Disconnects are under way only for ids that no connect is still working on. */
  ghost predicate Mannered(s: State) {
    && (forall id :: id in s.attempts ==> id !in s.learned && id !in s.failed && id in s.used)
    && (forall id :: id in s.learned ==> id in s.used && id !in s.failed)
    && (forall id :: id in s.failed ==> id in s.used)
    && (forall c :: c in s.closings ==> s.closings[c].id in s.learned && s.closings[c].id !in s.entries)
    && (forall id :: id in s.entries ==> id in s.learned)
    && (forall id :: id in s.generations ==> id in s.used)
  }

  /** A running connect holds the current token of `id` and reaches the sessions before the entries. */
  ghost predicate Unchallenged(s: State, id: Uuid) {
    id in s.attempts ==>
      StillCurrent(s, id) && s.attempts[id].phase != Orphaned && (s.attempts[id].phase == Installed <==> id in s.sessions)
  }

  ghost predicate ClosingIn(s: State, id: Uuid, phase: ClosingPhase) {
    exists c :: c in s.closings && s.closings[c].id == id && s.closings[c].phase == phase
  }

  /**
   * Which maps hold `id`: a session without an entry is on its way in or out, and a counter without
   * an entry belongs to a running connect, a running disconnect, or a failed connect.
   */
  ghost predicate Lockstep(s: State, id: Uuid) {
    && (id in s.entries ==> id in s.sessions && id in s.generations)
    && (id in s.sessions ==> id in s.entries || id in s.attempts || ClosingIn(s, id, RemovingSession))
    && (id in s.generations ==>
          id in s.entries || id in s.attempts || id in s.failed
          || ClosingIn(s, id, RemovingSession) || ClosingIn(s, id, Forgetting))
    && (id in s.failed ==> id in s.generations)
  }

  ghost predicate Orderly(s: State, id: Uuid) {
    Mannered(s) && Unchallenged(s, id) && Lockstep(s, id)
  }

  ghost predicate KeepsClosings(s: State, t: State, id: Uuid) {
    forall c :: c in s.closings && s.closings[c].id == id ==> c in t.closings && t.closings[c] == s.closings[c]
  }

  lemma ClosingInKept(s: State, t: State, id: Uuid)
    requires KeepsClosings(s, t, id)
    ensures forall phase :: ClosingIn(s, id, phase) ==> ClosingIn(t, id, phase)
  {
    forall phase | ClosingIn(s, id, phase)
      ensures ClosingIn(t, id, phase)
    {
      var c :| c in s.closings && s.closings[c].id == id && s.closings[c].phase == phase;
      assert t.closings[c] == s.closings[c];
    }
  }

  lemma FreshHasNoSession(s: State, id: Uuid)
    requires Paired(s) && id !in s.used
    ensures id !in s.sessions
  {
  }

  lemma StartConnectOrderly(s: State, started: Uuid, driver: Driver, id: Uuid)
    requires Orderly(s, id) && Enabled(s, StartConnect(started, driver)) && started !in s.sessions
    ensures Orderly(DoStartConnect(s, started, driver), id)
  {
    ClosingInKept(s, DoStartConnect(s, started, driver), id);
    hide ClosingIn, KeepsClosings;
  }

  lemma DialStepOrderly(s: State, a: Action, id: Uuid)
    requires Orderly(s, id) && Enabled(s, a)
    requires a.DialFails? || a.DialSucceeds? || a.DropOrphan?
    ensures Orderly(Step(s, a), id)
  {
    ClosingInKept(s, Step(s, a), id);
    hide ClosingIn, KeepsClosings;
  }

  lemma MovedOrderly(s: State, mover: Uuid, phase: Phase, holder: Option<Uuid>, id: Uuid)
    requires Orderly(s, id) && mover in s.attempts
    requires mover == id ==> phase != Orphaned && (phase == Installed <==> s.attempts[id].phase == Installed)
    ensures Orderly(Moved(s, mover, phase).(holder := holder), id)
  {
    ClosingInKept(s, Moved(s, mover, phase).(holder := holder), id);
    hide ClosingIn, KeepsClosings;
  }

  lemma InstallOrderly(s: State, mover: Uuid, id: Uuid)
    requires NothingToReplace(s) && Orderly(s, id) && At(s, mover, Cleared)
    ensures Orderly(DoInstall(s, mover), id)
  {
    ClosingInKept(s, DoInstall(s, mover), id);
    hide ClosingIn, KeepsClosings;
  }

  lemma PublishOrderly(s: State, mover: Uuid, id: Uuid)
    requires Orderly(s, id) && At(s, mover, Installed)
    ensures Orderly(DoPublish(s, mover), id)
  {
    ClosingInKept(s, DoPublish(s, mover), id);
    hide ClosingIn, KeepsClosings;
  }

  lemma StartDisconnectOrderly(s: State, call: CallId, target: Uuid, id: Uuid)
    requires Sound(s) && Orderly(s, id) && call !in s.closings && target in s.learned
    ensures Orderly(DoStartDisconnect(s, call, target), id)
  {
    var t := DoStartDisconnect(s, call, target);
    ClosingInKept(s, t, id);
    assert call in t.closings && t.closings[call].phase == RemovingSession;
  }

  lemma RemoveSessionOrderly(s: State, call: CallId, id: Uuid)
    requires Sound(s) && Orderly(s, id) && ClosingAt(s, call, RemovingSession)
    ensures Orderly(DoRemoveSession(s, call), id)
  {
    var t := DoRemoveSession(s, call);
    if s.closings[call].id != id {
      ClosingInKept(s, t, id);
    } else {
      assert call in t.closings && t.closings[call].phase == Forgetting;
    }
  }

  lemma ForgetAttemptOrderly(s: State, call: CallId, id: Uuid)
    requires Sound(s) && Orderly(s, id) && ClosingAt(s, call, Forgetting)
    ensures Orderly(DoForgetAttempt(s, call), id)
  {
    var t := DoForgetAttempt(s, call);
    if s.closings[call].id != id {
      ClosingInKept(s, t, id);
    } else if ClosingIn(s, id, RemovingSession) {
      var c :| c in s.closings && s.closings[c].id == id && s.closings[c].phase == RemovingSession;
      assert c in t.closings && t.closings[c].phase == RemovingSession;
    }
  }

  lemma CloseDriverOrderly(s: State, call: CallId, id: Uuid)
    requires Sound(s) && Orderly(s, id) && ClosingAt(s, call, ClosingDriver)
    ensures Orderly(DoCloseDriver(s, call), id)
  {
    var t := DoCloseDriver(s, call);
    forall phase | phase != ClosingDriver && ClosingIn(s, id, phase)
      ensures ClosingIn(t, id, phase)
    {
      var c :| c in s.closings && s.closings[c].id == id && s.closings[c].phase == phase;
      assert c in t.closings && t.closings[c] == s.closings[c];
    }
  }

  lemma OrderlyStep(s: State, a: Action, id: Uuid)
    requires Sound(s) && Orderly(s, id) && Enabled(s, a)
    requires a.StartDisconnect? ==> a.target in s.learned
    ensures Orderly(Step(s, a), id)
  {
    hide Mannered, Lockstep, Paired, ClosingIn;
    match a {
      case StartDisconnect(call, target) => StartDisconnectOrderly(s, call, target, id);
      case RemoveSession(call) => RemoveSessionOrderly(s, call, id);
      case ForgetAttempt(call) => ForgetAttemptOrderly(s, call, id);
      case CloseDriver(call) => CloseDriverOrderly(s, call, id);
      case FirstCheck(mover) =>
        MovedOrderly(s, mover, if StillCurrent(s, mover) then Checked else Orphaned, s.holder, id);
      case TakeLock(mover) => MovedOrderly(s, mover, Locked, Some(mover), id);
      case Recheck(mover) =>
        MovedOrderly(s, mover, if StillCurrent(s, mover) then Cleared else Orphaned,
                     if StillCurrent(s, mover) then s.holder else None, id);
      case Install(mover) => InstallOrderly(s, mover, id);
      case DropPrevious(_) =>
      case Publish(mover) => PublishOrderly(s, mover, id);
      case StartConnect(started, driver) =>
        FreshHasNoSession(s, started);
        StartConnectOrderly(s, started, driver, id);
      case _ => DialStepOrderly(s, a, id);
    }
  }

  lemma {:induction false} OrderlyRun(s: State, run: seq<Action>, id: Uuid)
    requires Sound(s) && Owned(s, 0) && Orderly(s, id) && Exec(s, run).Some? && Polite(s, run)
    ensures Orderly(Exec(s, run).value, id)
    decreases |run|
  {
    if run != [] {
      SoundStep(s, run[0], 0);
      OrderlyStep(s, run[0], id);
      OrderlyRun(Step(s, run[0]), run[1..], id);
    }
  }

  /**
   * If clients only disconnect ids they were given, then in every interleaving the entries are a part
   * of the sessions at every step and no connect is ever superseded.
   */
  lemma EntriesWithinSessions(run: seq<Action>)
    requires Exec(Initial, run).Some? && Polite(Initial, run)
    ensures var s := Exec(Initial, run).value;
            && s.entries.Keys <= s.sessions.Keys
            && (forall id :: id in s.attempts ==> s.attempts[id].phase != Orphaned && StillCurrent(s, id))
  {
    var s := Exec(Initial, run).value;
    forall id: Uuid
      ensures id in s.entries ==> id in s.sessions
      ensures id in s.attempts ==> s.attempts[id].phase != Orphaned && StillCurrent(s, id)
    {
      OrderlyRun(Initial, run, id);
    }
  }

  /**
   * With no call running the maps agree: entries and sessions hold the same ids, and a counter is
   * kept for these and, forever, for every id whose driver failed to connect.
   */
  lemma IdleMapsAgree(run: seq<Action>)
    requires Exec(Initial, run).Some? && Polite(Initial, run)
    requires Exec(Initial, run).value.attempts == map[] && Exec(Initial, run).value.closings == map[]
    ensures var s := Exec(Initial, run).value;
            && s.entries.Keys == s.sessions.Keys
            && s.generations.Keys == s.entries.Keys + s.failed
  {
    var s := Exec(Initial, run).value;
    forall id: Uuid
      ensures id in s.entries <==> id in s.sessions
      ensures id in s.generations <==> id in s.entries || id in s.failed
    {
      OrderlyRun(Initial, run, id);
    }
  }

  // ----- Lockstep, whatever clients disconnect -----

  /** The step takes a stored session of `id` out. */
  ghost predicate TakesSession(s: State, a: Action, id: Uuid) {
    a.RemoveSession? && a.call in s.closings && s.closings[a.call].id == id && id in s.sessions
  }

  /** Some step of the run takes a stored session of `id` out. */
  ghost predicate Taken(s: State, run: seq<Action>, id: Uuid)
    requires Exec(s, run).Some?
    decreases |run|
  {
    run != [] && (TakesSession(s, run[0], id) || Taken(Step(s, run[0]), run[1..], id))
  }

  /** A connect stores its session once, so it is there until it is taken. */
  ghost predicate Tracked(s: State, id: Uuid, taken: bool) {
    && (id !in s.used ==> !taken)
    && (id in s.attempts && s.attempts[id].phase != Installed ==> !taken)
    && (id in s.entries || At(s, id, Installed) ==> (id in s.sessions <==> !taken))
  }

  lemma KnownIsUsed(s: State, id: Uuid)
    requires Paired(s) && (id in s.attempts || id in s.sessions || id in s.entries)
    ensures id in s.used
  {
  }

  lemma TrackedConnect(s: State, a: Action, id: Uuid, taken: bool)
    requires Tracked(s, id, taken) && Enabled(s, a)
    requires id in s.entries || id in s.sessions || id in s.attempts ==> id in s.used
    requires a.StartConnect? || a.DialFails? || a.DialSucceeds? || a.DropOrphan? || a.Publish?
    ensures Tracked(Step(s, a), id, taken)
  {
  }

  lemma TrackedInsert(s: State, a: Action, id: Uuid, taken: bool)
    requires NothingToReplace(s) && Tracked(s, id, taken) && Enabled(s, a)
    requires id in s.attempts ==> id in s.used
    requires a.FirstCheck? || a.TakeLock? || a.Recheck? || a.DropPrevious?
    ensures Tracked(Step(s, a), id, taken)
  {
    hide StillCurrent;
  }

  lemma TrackedInstall(s: State, mover: Uuid, id: Uuid, taken: bool)
    requires Tracked(s, id, taken) && At(s, mover, Cleared)
    requires id in s.attempts ==> id in s.used
    ensures Tracked(DoInstall(s, mover), id, taken)
  {
  }

  lemma TrackedDisconnect(s: State, a: Action, id: Uuid, taken: bool)
    requires NothingToReplace(s) && Tracked(s, id, taken) && Enabled(s, a)
    requires id in s.sessions ==> id in s.used
    requires a.StartDisconnect? || a.RemoveSession? || a.ForgetAttempt? || a.CloseDriver?
    ensures Tracked(Step(s, a), id, taken || TakesSession(s, a, id))
  {
  }

  lemma TrackedStep(s: State, a: Action, id: Uuid, taken: bool)
    requires Sound(s) && Tracked(s, id, taken) && Enabled(s, a)
    ensures Tracked(Step(s, a), id, taken || TakesSession(s, a, id))
  {
    hide Tracked, Paired, NothingToReplace;
    if id in s.attempts || id in s.sessions || id in s.entries {
      KnownIsUsed(s, id);
    }
    if a.StartDisconnect? || a.RemoveSession? || a.ForgetAttempt? || a.CloseDriver? {
      TrackedDisconnect(s, a, id, taken);
    } else if a.Install? {
      TrackedInstall(s, a.id, id, taken);
    } else if a.FirstCheck? || a.TakeLock? || a.Recheck? || a.DropPrevious? {
      TrackedInsert(s, a, id, taken);
    } else {
      TrackedConnect(s, a, id, taken);
    }
  }

  lemma {:induction false} TrackedRun(s: State, run: seq<Action>, id: Uuid, taken: bool)
    requires Sound(s) && Owned(s, 0) && Tracked(s, id, taken) && Exec(s, run).Some?
    ensures Tracked(Exec(s, run).value, id, taken || Taken(s, run, id))
    decreases |run|
  {
    if run != [] {
      hide Tracked, Sound, Owned, TakesSession;
      TrackedStep(s, run[0], id, taken);
      SoundStep(s, run[0], 0);
      TrackedRun(Step(s, run[0]), run[1..], id, taken || TakesSession(s, run[0], id));
    }
  }

  /**
   * In every run, whichever ids clients disconnect, a published entry has its session exactly if no
   * disconnect took a stored session of its id. So entries are within sessions exactly if no
   * disconnect took the session of an id that is now published.
   */
  lemma LockstepExactly(run: seq<Action>)
    requires Exec(Initial, run).Some?
    ensures var s := Exec(Initial, run).value;
            && (forall id :: id in s.entries ==> (id in s.sessions <==> !Taken(Initial, run, id)))
            && (s.entries.Keys <= s.sessions.Keys <==> forall id :: id in s.entries ==> !Taken(Initial, run, id))
  {
    var s := Exec(Initial, run).value;
    forall id | id in s.entries
      ensures id in s.sessions <==> !Taken(Initial, run, id)
    {
      TrackedRun(Initial, run, id, false);
    }
  }

  // ----- The fence: a connect whose counter is forgotten in time comes to nothing -----

  /** The connect of `id` has not been let through by its second check yet. */
  ghost predicate BeforeRecheck(s: State, id: Uuid) {
    At(s, id, Dialing) || At(s, id, Dialed) || At(s, id, Checked) || At(s, id, Locked)
  }

  /** The step forgets the counter of `id` before its connect has passed the second check. */
  ghost predicate ForgetsInTime(s: State, a: Action, id: Uuid) {
    a.ForgetAttempt? && a.call in s.closings && s.closings[a.call].id == id && BeforeRecheck(s, id)
  }

  /** Some step of the run forgets the counter of `id` in time. */
  ghost predicate Overtaken(s: State, run: seq<Action>, id: Uuid)
    requires Exec(s, run).Some?
    decreases |run|
  {
    run != [] && (ForgetsInTime(s, run[0], id) || Overtaken(Step(s, run[0]), run[1..], id))
  }

  /** Where an overtaken connect can be: in no map, and if it still runs, without a counter. */
  ghost predicate Fenced(s: State, id: Uuid) {
    && id in s.used && id !in s.sessions && id !in s.entries && id !in s.learned
    && (id in s.attempts ==> id !in s.generations && (BeforeRecheck(s, id) || At(s, id, Orphaned)))
  }

  /** Where a connect that nothing overtook can be: on its way, failed to dial, or published. */
  ghost predicate Unhindered(s: State, id: Uuid) {
    && (id in s.attempts ==> id !in s.learned && s.attempts[id].phase != Orphaned)
    && (BeforeRecheck(s, id) ==> StillCurrent(s, id))
    && (id in s.used && id !in s.attempts ==> id in s.learned || id in s.failed)
    && (id !in s.used ==> id !in s.learned && id !in s.attempts)
  }

  ghost predicate Fate(s: State, id: Uuid, overtaken: bool) {
    && (if overtaken then Fenced(s, id) else Unhindered(s, id))
    && (id in s.entries ==> id in s.learned)
    && (forall c :: c in s.closings && s.closings[c].id == id && s.closings[c].entry.Some? ==> id in s.learned)
  }

  /** A driver whose connect failed never went live. */
  ghost predicate FailedNeverLive(s: State, d: Driver) {
    d in s.made && s.made[d] in s.failed ==> d !in s.live && s.made[d] !in s.attempts
  }

  lemma DriverOfConnect(s: State, id: Uuid)
    requires Paired(s) && id in s.attempts
    ensures s.attempts[id].driver in s.made && s.made[s.attempts[id].driver] == id
  {
  }

  lemma MadeForUsed(s: State, d: Driver)
    requires Paired(s) && d in s.made
    ensures s.made[d] in s.used
    ensures s.made[d] in s.attempts ==> s.attempts[s.made[d]].driver == d
  {
    if s.made[d] in s.attempts {
      DriverOfConnect(s, s.made[d]);
    }
  }

  /** No id in `s.failed` is unused. */
  ghost predicate FailedUsed(s: State) {
    forall id :: id in s.failed ==> id in s.used
  }

  lemma FailedDial(s: State, a: Action, d: Driver)
    requires NotLost(s, d) && FailedNeverLive(s, d) && FailedUsed(s) && Enabled(s, a)
    requires a.StartConnect? || a.DialFails? || a.DialSucceeds?
    requires d in s.made ==> s.made[d] in s.used && (s.made[d] in s.attempts ==> s.attempts[s.made[d]].driver == d)
    requires !a.StartConnect? ==>
               a.id in s.used && s.attempts[a.id].driver in s.made && s.made[s.attempts[a.id].driver] == a.id
    ensures FailedNeverLive(Step(s, a), d) && FailedUsed(Step(s, a))
  {
  }

  lemma FailedRest(s: State, a: Action, d: Driver)
    requires FailedNeverLive(s, d) && FailedUsed(s) && Enabled(s, a)
    requires !a.StartConnect? && !a.DialFails? && !a.DialSucceeds?
    ensures FailedNeverLive(Step(s, a), d) && FailedUsed(Step(s, a))
  {
    hide StillCurrent;
  }

  lemma FailedStep(s: State, a: Action, d: Driver)
    requires Paired(s) && NotLost(s, d) && FailedNeverLive(s, d) && FailedUsed(s) && Enabled(s, a)
    ensures FailedNeverLive(Step(s, a), d) && FailedUsed(Step(s, a))
  {
    hide Paired, NotLost, FailedNeverLive, FailedUsed, Step;
    if d in s.made {
      MadeForUsed(s, d);
    }
    if a.DialFails? || a.DialSucceeds? {
      DriverOfConnect(s, a.id);
      KnownIsUsed(s, a.id);
    }
    if a.StartConnect? || a.DialFails? || a.DialSucceeds? {
      FailedDial(s, a, d);
    } else {
      FailedRest(s, a, d);
    }
  }

  lemma FateConnect(s: State, a: Action, id: Uuid, overtaken: bool)
    requires Fate(s, id, overtaken) && Enabled(s, a)
    requires id in s.attempts ==> id in s.used
    requires a.StartConnect? || a.DialFails? || a.DialSucceeds?
    ensures Fate(Step(s, a), id, overtaken)
  {
  }

  lemma FateFinish(s: State, a: Action, id: Uuid, overtaken: bool)
    requires Fate(s, id, overtaken) && Enabled(s, a)
    requires id in s.attempts ==> id in s.used
    requires a.DropOrphan? || a.Publish?
    ensures Fate(Step(s, a), id, overtaken)
  {
  }

  lemma FateCheck(s: State, a: Action, id: Uuid, overtaken: bool)
    requires Fate(s, id, overtaken) && Enabled(s, a)
    requires a.FirstCheck? || a.TakeLock?
    ensures Fate(Step(s, a), id, overtaken)
  {
  }

  lemma FateRecheck(s: State, mover: Uuid, id: Uuid, overtaken: bool)
    requires Fate(s, id, overtaken) && At(s, mover, Locked)
    ensures Fate(DoRecheck(s, mover), id, overtaken)
  {
  }

  lemma FateInstall(s: State, mover: Uuid, id: Uuid, overtaken: bool)
    requires Fate(s, id, overtaken) && At(s, mover, Cleared)
    ensures Fate(DoInstall(s, mover), id, overtaken)
  {
  }

  lemma FateDisconnect(s: State, a: Action, id: Uuid, overtaken: bool)
    requires Fate(s, id, overtaken) && Enabled(s, a)
    requires id in s.entries || id in s.sessions || id in s.attempts ==> id in s.used
    requires BeforeRecheck(s, id) ==> id !in s.sessions
    requires a.StartDisconnect? || a.RemoveSession? || a.ForgetAttempt? || a.CloseDriver?
    ensures Fate(Step(s, a), id, overtaken || ForgetsInTime(s, a, id))
  {
  }

  lemma FateStep(s: State, a: Action, id: Uuid, overtaken: bool)
    requires Sound(s) && Fate(s, id, overtaken) && Enabled(s, a)
    ensures Fate(Step(s, a), id, overtaken || ForgetsInTime(s, a, id))
  {
    hide Paired, StillCurrent, Fate;
    if id in s.attempts || id in s.sessions || id in s.entries {
      KnownIsUsed(s, id);
    }
    match a
    case StartConnect(_, _) => FateConnect(s, a, id, overtaken);
    case DialFails(_) => FateConnect(s, a, id, overtaken);
    case DialSucceeds(_) => FateConnect(s, a, id, overtaken);
    case DropOrphan(_) => FateFinish(s, a, id, overtaken);
    case DropPrevious(_) =>
    case Publish(_) => FateFinish(s, a, id, overtaken);
    case FirstCheck(_) => FateCheck(s, a, id, overtaken);
    case TakeLock(_) => FateCheck(s, a, id, overtaken);
    case Recheck(mover) => FateRecheck(s, mover, id, overtaken);
    case Install(mover) => FateInstall(s, mover, id, overtaken);
    case _ => FateDisconnect(s, a, id, overtaken);
  }

  lemma {:induction false} FateRun(s: State, run: seq<Action>, id: Uuid, d: Driver, overtaken: bool)
    requires Sound(s) && Owned(s, d) && Fate(s, id, overtaken) && FailedNeverLive(s, d) && Exec(s, run).Some?
    requires FailedUsed(s)
    ensures var t := Exec(s, run).value;
            && Fate(t, id, overtaken || Overtaken(s, run, id)) && FailedNeverLive(t, d)
            && Sound(t) && Owned(t, d)
    decreases |run|
  {
    if run != [] {
      FailedStep(s, run[0], d);
      hide Sound, SingleHolder, NotLost, Fate, FailedNeverLive, FailedUsed, ForgetsInTime, Step, Enabled;
      FateStep(s, run[0], id, overtaken);
      SoundStep(s, run[0], d);
      FateRun(Step(s, run[0]), run[1..], id, d, overtaken || ForgetsInTime(s, run[0], id));
    }
  }

  /**
   * The fence holds in every run: once the counter of `id` is forgotten before its connect has passed
   * the second check, that connect never publishes and stores no session, and its driver, if it
   * connected, is still with the running connect or has been disconnected, once.
   */
  lemma OvertakenConnectComesToNothing(run: seq<Action>, d: Driver)
    requires Exec(Initial, run).Some? && d in Exec(Initial, run).value.made
    requires Overtaken(Initial, run, Exec(Initial, run).value.made[d])
    ensures var s := Exec(Initial, run).value;
            var id := s.made[d];
            && id !in s.entries && id !in s.sessions && id !in s.learned
            && (d in s.live && id !in s.attempts ==> s.closed[d] == 1)
  {
    var id := Exec(Initial, run).value.made[d];
    FateRun(Initial, run, id, d, false);
    hide Exec;
  }

  /**
   * A finished connect whose driver connected was published if and only if nothing forgot its counter
   * before its second check.
   */
  lemma PublishedExactly(run: seq<Action>, d: Driver)
    requires Exec(Initial, run).Some?
    requires d in Exec(Initial, run).value.live && d in Exec(Initial, run).value.made
    requires Exec(Initial, run).value.made[d] !in Exec(Initial, run).value.attempts
    ensures var s := Exec(Initial, run).value;
            s.made[d] in s.learned <==> !Overtaken(Initial, run, s.made[d])
  {
    var id := Exec(Initial, run).value.made[d];
    FateRun(Initial, run, id, d, false);
    hide Exec;
  }

  ghost predicate Reaches(s: State, run: seq<Action>, t: State) {
    Exec(s, run) == Some(t)
  }

  lemma ReachesItself(s: State)
    ensures Reaches(s, [], s)
  {
  }

  lemma Executed(s: State, run: seq<Action>, t: State)
    requires Reaches(s, run, t)
    ensures Exec(s, run) == Some(t)
  {
  }

  lemma {:induction false} Extend(s: State, run: seq<Action>, t: State, a: Action, longer: seq<Action>)
    requires Reaches(s, run, t) && Enabled(t, a) && longer == run + [a]
    ensures Reaches(s, longer, Step(t, a))
    decreases |run|
  {
    if run != [] {
      Extend(Step(s, run[0]), run[1..], t, a, longer[1..]);
    }
  }

  /** The steps of one connect that nothing disturbs. */
  function ConnectRun(id: Uuid, driver: Driver): seq<Action> {
    [StartConnect(id, driver), DialSucceeds(id), FirstCheck(id), TakeLock(id), Recheck(id), Install(id), Publish(id)]
  }

  ghost predicate Ready(s: State, id: Uuid, driver: Driver) {
    && Enabled(s, StartConnect(id, driver)) && s.holder == None
    && id !in s.attempts && id !in s.generations && id !in s.sessions && id !in s.entries
  }

  /** A connect from a ready state that has got to `phase`, before it stores its session. */
  ghost function Underway(s: State, id: Uuid, driver: Driver, phase: Phase): State {
    s.(generations := s.generations[id := 1], made := s.made[driver := id], used := s.used + {id},
       live := s.live + {driver}, attempts := s.attempts[id := Attempt(driver, 1, phase)])
  }

  ghost function AfterInstall(s: State, id: Uuid, driver: Driver): State {
    Underway(s, id, driver, Installed).(sessions := s.sessions[id := driver])
  }

  lemma ConnectStarts(s: State, id: Uuid, driver: Driver)
    requires Ready(s, id, driver)
    ensures Reaches(s, ConnectRun(id, driver)[..2], Underway(s, id, driver, Dialed))
  {
    hide Reaches, Exec;
    ReachesItself(s);
    var a := ConnectRun(id, driver);
    var s1 := DoStartConnect(s, id, driver);
    Extend(s, [], s, a[0], a[..1]);
    Extend(s, a[..1], s1, a[1], a[..2]);
    assert DoDialSucceeds(s1, id).attempts == Underway(s, id, driver, Dialed).attempts;
  }

  lemma UnderwayMoves(s: State, id: Uuid, driver: Driver, phase: Phase, next: Phase)
    ensures Moved(Underway(s, id, driver, phase), id, next) == Underway(s, id, driver, next)
    ensures StillCurrent(Underway(s, id, driver, phase), id)
  {
    assert s.attempts[id := Attempt(driver, 1, phase)][id := Attempt(driver, 1, next)] == s.attempts[id := Attempt(driver, 1, next)];
  }

  lemma ConnectSteps(s: State, id: Uuid, driver: Driver)
    requires Ready(s, id, driver)
    ensures Reaches(s, ConnectRun(id, driver)[..6], AfterInstall(s, id, driver))
  {
    hide Reaches, Exec, StillCurrent;
    ConnectStarts(s, id, driver);
    UnderwayMoves(s, id, driver, Dialed, Checked);
    UnderwayMoves(s, id, driver, Checked, Locked);
    UnderwayMoves(s, id, driver, Locked, Cleared);
    UnderwayMoves(s, id, driver, Cleared, Installed);
    var a := ConnectRun(id, driver);
    var s4 := Underway(s, id, driver, Locked).(holder := Some(id));
    var s5 := Underway(s, id, driver, Cleared).(holder := Some(id));
    LockedMoves(s, id, driver);
    Extend(s, a[..2], Underway(s, id, driver, Dialed), a[2], a[..3]);
    Extend(s, a[..3], Underway(s, id, driver, Checked), a[3], a[..4]);
    Extend(s, a[..4], s4, a[4], a[..5]);
    Extend(s, a[..5], s5, a[5], a[..6]);
  }

  lemma LockedMoves(s: State, id: Uuid, driver: Driver)
    requires id !in s.sessions && s.holder == None
    ensures var locked := Underway(s, id, driver, Locked).(holder := Some(id));
            DoRecheck(locked, id) == Underway(s, id, driver, Cleared).(holder := Some(id))
    ensures var cleared := Underway(s, id, driver, Cleared).(holder := Some(id));
            DoInstall(cleared, id) == AfterInstall(s, id, driver)
  {
    UnderwayMoves(s, id, driver, Locked, Cleared);
    UnderwayMoves(s, id, driver, Cleared, Installed);
  }

  /** A whole connect, with the disconnect of a guessed id falling between its last two steps. */
  function GuessRun(id: Uuid, d: Driver): seq<Action> {
    [StartConnect(id, d), DialSucceeds(id), FirstCheck(id), TakeLock(id), Recheck(id), Install(id),
     StartDisconnect(0, id), RemoveSession(0), ForgetAttempt(0), CloseDriver(0), Publish(id)]
  }

  /**
   * A run that breaks lockstep: a disconnect that guesses the id of a running connect takes its session, and leaves
   * an entry without one, though the driver stays published and open.
   */
  lemma GuessedDisconnectBreaksLockstep(id: Uuid, d: Driver)
    ensures Exec(Initial, GuessRun(id, d)).Some?
    ensures var s := Exec(Initial, GuessRun(id, d)).value;
            && s.attempts == map[] && s.closings == map[]
            && s.entries == map[id := d] && s.sessions == map[] && d !in s.closed
  {
    var s6 := AfterInstall(Initial, id, d);
    ConnectSteps(Initial, id, d);
    assert GuessRun(id, d)[..6] == ConnectRun(id, d)[..6];
    GuessedTail(id, d, s6);
  }

  lemma GuessedTail(id: Uuid, d: Driver, s6: State)
    requires Reaches(Initial, GuessRun(id, d)[..6], s6)
    requires s6.attempts == map[id := Attempt(d, 1, Installed)] && s6.sessions == map[id := d] && s6.entries == map[]
    requires s6.closings == map[] && s6.holder == None && s6.closed == multiset{}
    ensures Exec(Initial, GuessRun(id, d)).Some?
    ensures var s := Exec(Initial, GuessRun(id, d)).value;
            && s.attempts == map[] && s.closings == map[]
            && s.entries == map[id := d] && s.sessions == map[] && s.closed == multiset{}
  {
    hide Reaches, Exec;
    var a := GuessRun(id, d);
    var s7 := DoStartDisconnect(s6, 0, id);
    var s8 := DoRemoveSession(s7, 0);
    var s9 := DoForgetAttempt(s8, 0);
    var s10 := DoCloseDriver(s9, 0);
    Extend(Initial, a[..6], s6, a[6], a[..7]);
    Extend(Initial, a[..7], s7, a[7], a[..8]);
    Extend(Initial, a[..8], s8, a[8], a[..9]);
    Extend(Initial, a[..9], s9, a[9], a[..10]);
    Extend(Initial, a[..10], s10, a[10], a);
    Executed(Initial, a, DoPublish(s10, id));
  }
}

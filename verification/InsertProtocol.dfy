/**
 * The two registries under concurrency, one step per critical section.
 *
 * `insert_if_current` takes four steps: it checks the token, takes the session lock, checks the
 * token again under that lock, then installs the session and releases the lock. The counters have a
 * lock of their own, so a `begin` or an `invalidate` may fall between any two of those steps.
 *
 * `ConnectProtocol` is a second system over other actions; each has its own lemmas about runs.
 */
module InsertProtocol {
  import opened Wrappers
  import opened ConnectionAttempts
  import opened Sessions

  type CallId = nat

  datatype Phase = Checked | Locked | Cleared

  datatype Call = Call(token: AttemptToken, phase: Phase)

  /** One accepted insert; `over` is the token under which the session it displaced was installed. */
  datatype Accepted<S> = Accepted(token: AttemptToken, session: S, over: Option<AttemptToken>)

  /**
   * `generations`, `sessions` and `holder` (of the session lock) are the registries. `calls` and
   * `held` are the running inserts and the sessions they were given. The rest is history: tokens
   * minted, who installed what is stored, accepted inserts in order, and where sessions came out.
   */
  datatype State<S> = State(
    generations: Generations,
    sessions: map<Uuid, S>,
    holder: Option<CallId>,
    calls: map<CallId, Call>,
    held: map<CallId, S>,
    minted: set<AttemptToken>,
    origin: map<Uuid, AttemptToken>,
    log: seq<Accepted<S>>,
    given: multiset<S>,
    refused: multiset<S>,
    displaced: multiset<S>,
    removed: multiset<S>)

  datatype Action<S> =
    | Begin(id: Uuid)
    | Invalidate(id: Uuid)
    | Forget(id: Uuid)
    | FirstCheck(call: CallId, token: AttemptToken, session: S)
    | TakeLock(call: CallId)
    | Recheck(call: CallId)
    | Install(call: CallId)
    | Remove(id: Uuid)

  ghost function Initial<S>(): State<S> {
    State(map[], map[], None, map[], map[], {}, map[], [], multiset{}, multiset{}, multiset{}, multiset{})
  }

  ghost predicate InPhase<S>(s: State<S>, call: CallId, phase: Phase) {
    call in s.calls && call in s.held && s.calls[call].phase == phase
  }

  ghost predicate Enabled<S>(s: State<S>, a: Action<S>) {
    match a
    case Begin(_) => true
    case Invalidate(_) => true
    case Forget(_) => true
    case FirstCheck(call, token, _) => call !in s.calls && call !in s.held && token in s.minted
    case TakeLock(call) => InPhase(s, call, Checked) && s.holder == None
    case Recheck(call) => InPhase(s, call, Locked)
    case Install(call) => InPhase(s, call, Cleared)
    case Remove(_) => s.holder == None
  }

  ghost function DoBegin<S>(s: State<S>, id: Uuid): State<S> {
    s.(generations := Bump(s.generations, id),
       minted := s.minted + {AttemptToken(id, NextGeneration(s.generations, id))})
  }

  ghost function DoFirstCheck<S>(s: State<S>, call: CallId, token: AttemptToken, session: S): State<S> {
    var s1 := s.(given := s.given + multiset{session});
    if Current(s.generations, token)
    then s1.(calls := s.calls[call := Call(token, Checked)], held := s.held[call := session])
    else s1.(refused := s.refused + multiset{session})
  }

  ghost function DoTakeLock<S>(s: State<S>, call: CallId): State<S>
    requires call in s.calls
  {
    s.(holder := Some(call), calls := s.calls[call := Call(s.calls[call].token, Locked)])
  }

  ghost function DoRecheck<S>(s: State<S>, call: CallId): State<S>
    requires call in s.calls && call in s.held
  {
    if Current(s.generations, s.calls[call].token)
    then s.(calls := s.calls[call := Call(s.calls[call].token, Cleared)])
    else s.(holder := None, calls := s.calls - {call}, held := s.held - {call},
            refused := s.refused + multiset{s.held[call]})
  }

  ghost function Stored<S>(s: State<S>, id: Uuid): multiset<S> {
    if id in s.sessions then multiset{s.sessions[id]} else multiset{}
  }

  ghost function DoInstall<S>(s: State<S>, call: CallId): State<S>
    requires call in s.calls && call in s.held
  {
    var token, session := s.calls[call].token, s.held[call];
    var id := token.connectionId;
    s.(sessions := s.sessions[id := session], origin := s.origin[id := token],
       holder := None, calls := s.calls - {call}, held := s.held - {call},
       displaced := s.displaced + Stored(s, id),
       log := s.log + [Accepted(token, session, Lookup(s.origin, id))])
  }

  ghost function DoRemove<S>(s: State<S>, id: Uuid): State<S> {
    s.(sessions := s.sessions - {id}, origin := s.origin - {id}, removed := s.removed + Stored(s, id))
  }

  ghost function Step<S>(s: State<S>, a: Action<S>): State<S>
    requires Enabled(s, a)
  {
    match a
    case Begin(id) => DoBegin(s, id)
    case Invalidate(id) => s.(generations := Bump(s.generations, id))
    case Forget(id) => s.(generations := s.generations - {id})
    case FirstCheck(call, token, session) => DoFirstCheck(s, call, token, session)
    case TakeLock(call) => DoTakeLock(s, call)
    case Recheck(call) => DoRecheck(s, call)
    case Install(call) => DoInstall(s, call)
    case Remove(id) => DoRemove(s, id)
  }

  /** The state after a whole run, or None when some action was not possible. */
  ghost function Exec<S>(s: State<S>, run: seq<Action<S>>): Option<State<S>>
    decreases |run|
  {
    if run == [] then Some(s)
    else if Enabled(s, run[0]) then Exec(Step(s, run[0]), run[1..])
    else None
  }

  ghost predicate Bumps<S>(a: Action<S>, id: Uuid) {
    a == Begin(id) || a == Invalidate(id)
  }

  ghost function BumpCount<S>(run: seq<Action<S>>, id: Uuid): nat {
    if run == [] then 0 else (if Bumps(run[0], id) then 1 else 0) + BumpCount(run[1..], id)
  }

  // ----- No session is lost or duplicated -----

  /** How often `v` is stored in `m`. */
  ghost function Occurrences<K(!new), V>(m: map<K, V>, v: V): nat {
    |set k | k in m && m[k] == v|
  }

  ghost function Once<V>(there: bool, x: V, v: V): nat {
    if there && x == v then 1 else 0
  }

  lemma OccurrencesRemove<K(!new), V>(m: map<K, V>, k: K, v: V)
    ensures Occurrences(m - {k}, v) == Occurrences(m, v) - if k in m then Once(true, m[k], v) else 0
  {
    var before := set j | j in m && m[j] == v;
    var after := set j | j in m - {k} && (m - {k})[j] == v;
    assert after == before - {k};
  }

  lemma OccurrencesPut<K(!new), V>(m: map<K, V>, k: K, x: V, v: V)
    ensures Occurrences(m[k := x], v) == Occurrences(m - {k}, v) + Once(true, x, v)
  {
    var before := set j | j in m - {k} && (m - {k})[j] == v;
    var m' := m[k := x];
    var after := set j | j in m' && m'[j] == v;
    if x == v {
      assert after == before + {k};
    } else {
      assert after == before;
    }
  }

  lemma NoOccurrences<K(!new), V>(m: map<K, V>, v: V)
    ensures m.Keys == {} ==> Occurrences(m, v) == 0
  {
    var found := set k | k in m && m[k] == v;
    assert found <= m.Keys;
  }

  /** Session `v` came in as often as it can be found in the places a session can be. */
  ghost predicate Conserved<S(!new)>(s: State<S>, v: S) {
    s.given[v] ==
    Occurrences(s.held, v) + Occurrences(s.sessions, v) + s.refused[v] + s.displaced[v] + s.removed[v]
  }

  lemma FirstCheckConserves<S(!new)>(s: State<S>, call: CallId, token: AttemptToken, session: S, v: S)
    requires Conserved(s, v) && call !in s.held
    ensures Conserved(DoFirstCheck(s, call, token, session), v)
  {
    OccurrencesPut(s.held, call, session, v);
    OccurrencesRemove(s.held, call, v);
  }

  lemma RecheckConserves<S(!new)>(s: State<S>, call: CallId, v: S)
    requires Conserved(s, v) && call in s.calls && call in s.held
    ensures Conserved(DoRecheck(s, call), v)
  {
    OccurrencesRemove(s.held, call, v);
  }

  lemma InstallConserves<S(!new)>(s: State<S>, call: CallId, v: S)
    requires Conserved(s, v) && call in s.calls && call in s.held
    ensures Conserved(DoInstall(s, call), v)
  {
    var id := s.calls[call].token.connectionId;
    OccurrencesRemove(s.held, call, v);
    OccurrencesPut(s.sessions, id, s.held[call], v);
    OccurrencesRemove(s.sessions, id, v);
  }

  lemma RemoveConserves<S(!new)>(s: State<S>, id: Uuid, v: S)
    requires Conserved(s, v)
    ensures Conserved(DoRemove(s, id), v)
  {
    OccurrencesRemove(s.sessions, id, v);
  }

  lemma ConservedStep<S(!new)>(s: State<S>, a: Action<S>, v: S)
    requires Conserved(s, v) && Enabled(s, a)
    ensures Conserved(Step(s, a), v)
  {
    match a {
      case FirstCheck(call, token, session) => FirstCheckConserves(s, call, token, session, v);
      case Recheck(call) => RecheckConserves(s, call, v);
      case Install(call) => InstallConserves(s, call, v);
      case Remove(id) => RemoveConserves(s, id, v);
      case _ =>
    }
  }

  /**
   * Every session handed in is, counted with multiplicity, in exactly one place: still held by a
   * running insert, stored, handed back as refused, returned as a predecessor, or removed.
   */
  lemma {:induction false} SessionsConserved<S(!new)>(s: State<S>, run: seq<Action<S>>, v: S)
    requires Conserved(s, v) && Exec(s, run).Some?
    ensures Conserved(Exec(s, run).value, v)
    decreases |run|
  {
    if run != [] {
      ConservedStep(s, run[0], v);
      SessionsConserved(Step(s, run[0]), run[1..], v);
    }
  }

  /** So it is in every interleaving from the start, where no session has come in yet. */
  lemma SessionsConservedFromStart<S(!new)>(run: seq<Action<S>>, v: S)
    requires Exec(Initial<S>(), run).Some?
    ensures Conserved(Exec(Initial<S>(), run).value, v)
  {
    var none := Initial<S>();
    NoOccurrences(none.held, v);
    NoOccurrences(none.sessions, v);
    SessionsConserved(none, run, v);
  }

  // ----- No insert is ever stuck -----

  ghost predicate LockDiscipline<S>(s: State<S>) {
    forall c :: c in s.calls && s.calls[c].phase != Checked ==> s.holder == Some(c)
  }

  /** The lock is held by exactly the running insert that is past taking it, and every insert has its session. */
  ghost predicate Unstuck<S>(s: State<S>) {
    && LockDiscipline(s) && (forall c :: c in s.calls <==> c in s.held)
    && (s.holder.Some? ==> s.holder.value in s.calls && s.calls[s.holder.value].phase != Checked)
  }

  /** The steps by which a running insert goes on. */
  function Continuation<S>(call: CallId, phase: Phase): Action<S> {
    match phase
    case Checked => TakeLock(call)
    case Locked => Recheck(call)
    case Cleared => Install(call)
  }

  lemma UnstuckStep<S(!new)>(s: State<S>, a: Action<S>)
    requires Unstuck(s) && Enabled(s, a)
    ensures Unstuck(Step(s, a))
  {
  }

  lemma {:induction false} UnstuckRun<S(!new)>(s: State<S>, run: seq<Action<S>>)
    requires Unstuck(s) && Exec(s, run).Some?
    ensures Unstuck(Exec(s, run).value)
    decreases |run|
  {
    if run != [] {
      UnstuckStep(s, run[0]);
      UnstuckRun(Step(s, run[0]), run[1..]);
    }
  }

  /** How many steps the running inserts still have before them, at most. */
  ghost function StepsLeft(phase: Phase): nat {
    match phase
    case Checked => 3
    case Locked => 2
    case Cleared => 1
  }

  /**
   * In every reachable state with a running insert, some running insert can go on; and whatever step
   * it takes, it is then finished or nearer its end.
   */
  lemma NeverStuck<S(!new)>(run: seq<Action<S>>, call: CallId)
    requires Exec(Initial<S>(), run).Some? && call in Exec(Initial<S>(), run).value.calls
    ensures var s := Exec(Initial<S>(), run).value;
            var next := if s.holder.Some? then s.holder.value else call;
            next in s.calls &&
            var a := Continuation(next, s.calls[next].phase);
            && Enabled(s, a)
            && (next in Step(s, a).calls ==> StepsLeft(Step(s, a).calls[next].phase) < StepsLeft(s.calls[next].phase))
  {
    UnstuckRun(Initial<S>(), run);
    hide Exec;
  }

  // ----- Accepted generations never go down -----

  /** `n` bumps of `id` so far, none forgotten, and no wrap-around yet. */
  ghost predicate Counted<S>(s: State<S>, id: Uuid, n: nat) {
    && (if n == 0 then id !in s.generations else id in s.generations && s.generations[id] == n)
    && (forall t :: t in s.minted && t.connectionId == id ==> 1 <= t.generation <= n)
    && (forall c :: c in s.calls ==> s.calls[c].token in s.minted)
  }

  /** Inserts accepted for `id` so far are in generation order, up to the one now cleared to install. */
  ghost predicate Ordered<S>(s: State<S>, id: Uuid, n: nat) {
    && (forall i, j :: 0 <= i < j < |s.log| && s.log[i].token.connectionId == id && s.log[j].token.connectionId == id
          ==> s.log[i].token.generation <= s.log[j].token.generation)
    && (forall i :: 0 <= i < |s.log| && s.log[i].token.connectionId == id ==> s.log[i].token.generation <= n)
    && (forall c, i :: c in s.calls && s.calls[c].phase == Cleared && s.calls[c].token.connectionId == id
                       && 0 <= i < |s.log| && s.log[i].token.connectionId == id
          ==> s.log[i].token.generation <= s.calls[c].token.generation)
  }

  /** What is stored under `id` was put there by an insert in the log, and likewise what was displaced. */
  ghost predicate Traced<S>(s: State<S>, id: Uuid) {
    && (id in s.origin ==> exists i :: 0 <= i < |s.log| && s.log[i].token == s.origin[id])
    && (id in s.origin ==> s.origin[id].connectionId == id)
    && (id in s.sessions <==> id in s.origin)
    && (forall j :: 0 <= j < |s.log| && s.log[j].token.connectionId == id && s.log[j].over.Some? ==>
          s.log[j].over.value.connectionId == id && s.log[j].over.value.generation <= s.log[j].token.generation)
  }

  ghost predicate Fenced<S>(s: State<S>, id: Uuid, n: nat) {
    LockDiscipline(s) && Counted(s, id, n) && Ordered(s, id, n) && Traced(s, id)
  }

  lemma BumpKeepsFence<S(!new)>(s: State<S>, id: Uuid, n: nat, other: Uuid)
    requires Fenced(s, id, n) && (other == id ==> n + 1 < GENERATION_COUNT)
    ensures Fenced(s.(generations := Bump(s.generations, other)), id, if other == id then n + 1 else n)
  {
  }

  lemma BeginKeepsFence<S(!new)>(s: State<S>, id: Uuid, n: nat, other: Uuid)
    requires Fenced(s, id, n) && (other == id ==> n + 1 < GENERATION_COUNT)
    ensures Fenced(DoBegin(s, other), id, if other == id then n + 1 else n)
  {
    BumpKeepsFence(s, id, n, other);
  }

  /** A call that has only been checked changes nothing that matters. */
  lemma CheckedFrame<S(!new)>(s: State<S>, t: State<S>, id: Uuid, n: nat)
    requires Fenced(s, id, n)
    requires t.generations == s.generations && t.minted == s.minted && t.holder == s.holder
    requires t.origin == s.origin && t.sessions == s.sessions && t.log == s.log
    requires forall c :: c in t.calls ==>
               (t.calls[c].phase == Checked && t.calls[c].token in s.minted) || (c in s.calls && t.calls[c] == s.calls[c])
    ensures Fenced(t, id, n)
  {
  }

  lemma FirstCheckKeepsFence<S(!new)>(s: State<S>, id: Uuid, n: nat, call: CallId, token: AttemptToken, session: S)
    requires Fenced(s, id, n) && token in s.minted
    ensures Fenced(DoFirstCheck(s, call, token, session), id, n)
  {
    hide Fenced;
    CheckedFrame(s, DoFirstCheck(s, call, token, session), id, n);
  }

  lemma TakeLockKeepsFence<S(!new)>(s: State<S>, id: Uuid, n: nat, call: CallId)
    requires Fenced(s, id, n) && call in s.calls && s.holder == None
    ensures Fenced(DoTakeLock(s, call), id, n)
  {
  }

  lemma RecheckKeepsFence<S(!new)>(s: State<S>, id: Uuid, n: nat, call: CallId)
    requires Fenced(s, id, n) && InPhase(s, call, Locked)
    ensures Fenced(DoRecheck(s, call), id, n)
  {
  }

  lemma InstallKeepsFence<S(!new)>(s: State<S>, id: Uuid, n: nat, call: CallId)
    requires Fenced(s, id, n) && InPhase(s, call, Cleared)
    ensures Fenced(DoInstall(s, call), id, n)
  {
    var s' := DoInstall(s, call);
    var k := |s.log|;
    assert s'.log[k].token == s.calls[call].token;
    assert forall i :: 0 <= i < k ==> s'.log[i] == s.log[i];
    assert Traced(s', id);
  }

  lemma RemoveKeepsFence<S(!new)>(s: State<S>, id: Uuid, n: nat, other: Uuid)
    requires Fenced(s, id, n)
    ensures Fenced(DoRemove(s, other), id, n)
    ensures other != id ==> Fenced(s.(generations := s.generations - {other}), id, n)
  {
  }

  lemma FenceStep<S(!new)>(s: State<S>, a: Action<S>, id: Uuid, n: nat)
    requires Fenced(s, id, n) && Enabled(s, a) && a != Forget(id)
    requires Bumps(a, id) ==> n + 1 < GENERATION_COUNT
    ensures Fenced(Step(s, a), id, if Bumps(a, id) then n + 1 else n)
  {
    match a {
      case Begin(other) => BeginKeepsFence(s, id, n, other);
      case Invalidate(other) => BumpKeepsFence(s, id, n, other);
      case Forget(other) => RemoveKeepsFence(s, id, n, other);
      case FirstCheck(call, token, session) => FirstCheckKeepsFence(s, id, n, call, token, session);
      case TakeLock(call) => TakeLockKeepsFence(s, id, n, call);
      case Recheck(call) => RecheckKeepsFence(s, id, n, call);
      case Install(call) => InstallKeepsFence(s, id, n, call);
      case Remove(other) => RemoveKeepsFence(s, id, n, other);
    }
  }

  lemma {:induction false} FenceRun<S(!new)>(s: State<S>, run: seq<Action<S>>, id: Uuid, n: nat)
    requires Fenced(s, id, n) && Exec(s, run).Some?
    requires Forget(id) !in run && n + BumpCount(run, id) < GENERATION_COUNT
    ensures Fenced(Exec(s, run).value, id, n + BumpCount(run, id))
    decreases |run|
  {
    if run != [] {
      FenceStep(s, run[0], id, n);
      FenceRun(Step(s, run[0]), run[1..], id, if Bumps(run[0], id) then n + 1 else n);
    }
  }

  /**
   * In every interleaving from the start, as long as `id` is not forgotten and is bumped fewer than
   * 2^64 times: the generations of its accepted inserts never decrease, and no insert displaces the
   * session of a newer attempt.
   */
  lemma AcceptedGenerationsNeverDecrease<S(!new)>(run: seq<Action<S>>, id: Uuid)
    requires Exec(Initial<S>(), run).Some?
    requires Forget(id) !in run && BumpCount(run, id) < GENERATION_COUNT
    ensures var log := Exec(Initial<S>(), run).value.log;
            && (forall i, j :: 0 <= i < j < |log| && log[i].token.connectionId == id && log[j].token.connectionId == id
                  ==> log[i].token.generation <= log[j].token.generation)
            && (forall j :: 0 <= j < |log| && log[j].token.connectionId == id && log[j].over.Some?
                  ==> log[j].over.value.generation <= log[j].token.generation)
  {
    FenceRun(Initial<S>(), run, id, 0);
  }

  /** A superseded token stays superseded, so whoever lost the race keeps seeing that it lost. */
  lemma StaleStaysStale<S(!new)>(before: seq<Action<S>>, after: seq<Action<S>>, token: AttemptToken)
    requires Exec(Initial<S>(), before).Some? && Exec(Exec(Initial<S>(), before).value, after).Some?
    requires Forget(token.connectionId) !in before && Forget(token.connectionId) !in after
    requires BumpCount(before, token.connectionId) + BumpCount(after, token.connectionId) < GENERATION_COUNT
    requires token in Exec(Initial<S>(), before).value.minted
    requires !Current(Exec(Initial<S>(), before).value.generations, token)
    ensures !Current(Exec(Exec(Initial<S>(), before).value, after).value.generations, token)
  {
    var id := token.connectionId;
    FenceRun(Initial<S>(), before, id, 0);
    FenceRun(Exec(Initial<S>(), before).value, after, id, BumpCount(before, id));
  }

  // ----- An undisturbed insert, and runs that show each condition is needed -----

  function InsertRun<S>(call: CallId, token: AttemptToken, session: S): seq<Action<S>> {
    [FirstCheck(call, token, session), TakeLock(call), Recheck(call), Install(call)]
  }

  ghost function Landed<S>(s: State<S>, token: AttemptToken, session: S): State<S> {
    var id := token.connectionId;
    s.(sessions := s.sessions[id := session], origin := s.origin[id := token],
       given := s.given + multiset{session},
       displaced := s.displaced + Stored(s, id),
       log := s.log + [Accepted(token, session, Lookup(s.origin, id))])
  }

  lemma {:induction false} ExecAppend<S(!new)>(s: State<S>, a: seq<Action<S>>, b: seq<Action<S>>)
    requires Exec(s, a).Some?
    ensures Exec(s, a + b) == Exec(Exec(s, a).value, b)
    decreases |a|
  {
    if a == [] {
      assert a + b == b;
    } else {
      hide Step, Enabled;
      ExecAppend(Step(s, a[0]), a[1..], b);
      assert (a + b)[0] == a[0] && (a + b)[1..] == a[1..] + b;
    }
  }

  lemma {:induction false} BumpCountAppend<S(!new)>(a: seq<Action<S>>, b: seq<Action<S>>, id: Uuid)
    ensures BumpCount(a + b, id) == BumpCount(a, id) + BumpCount(b, id)
  {
    if a == [] {
      assert a + b == b;
    } else {
      BumpCountAppend(a[1..], b, id);
      assert (a + b)[1..] == a[1..] + b;
    }
  }

  ghost predicate Reaches<S>(s: State<S>, run: seq<Action<S>>, t: State<S>) {
    Exec(s, run) == Some(t)
  }

  lemma ReachesItself<S(!new)>(s: State<S>)
    ensures Reaches(s, [], s)
  {
  }

  lemma Executed<S(!new)>(s: State<S>, run: seq<Action<S>>, t: State<S>)
    requires Reaches(s, run, t)
    ensures Exec(s, run) == Some(t)
  {
  }

  lemma Extend<S(!new)>(s: State<S>, run: seq<Action<S>>, t: State<S>, a: Action<S>, longer: seq<Action<S>>)
    requires Reaches(s, run, t) && Enabled(t, a) && longer == run + [a]
    ensures Reaches(s, longer, Step(t, a))
  {
    ExecAppend(s, run, [a]);
  }

  /**
   * The four steps run without interference are the sequential `insert_if_current`: a current token
   * is accepted with the stored predecessor displaced, and nothing of the call is left behind.
   */
  lemma UndisturbedInsert<S(!new)>(s: State<S>, call: CallId, token: AttemptToken, session: S)
    requires s.holder == None && call !in s.calls && call !in s.held
    requires token in s.minted && Current(s.generations, token)
    ensures Reaches(s, InsertRun(call, token, session), Landed(s, token, session))
    ensures Landed(s, token, session).sessions == Installed(s.sessions, s.generations, token, session)
  {
    hide Reaches, Exec;
    ReachesItself(s);
    var a := InsertRun(call, token, session);
    var s1 := DoFirstCheck(s, call, token, session);
    var s2 := DoTakeLock(s1, call);
    var s3 := DoRecheck(s2, call);
    Extend(s, [], s, a[0], a[..1]);
    Extend(s, a[..1], s1, a[1], a[..2]);
    Extend(s, a[..2], s2, a[2], a[..3]);
    Extend(s, a[..3], s3, a[3], a);
    UndisturbedSteps(s, call, token, session);
  }

  lemma UndisturbedSteps<S(!new)>(s: State<S>, call: CallId, token: AttemptToken, session: S)
    requires s.holder == None && call !in s.calls && call !in s.held && Current(s.generations, token)
    ensures DoInstall(DoRecheck(DoTakeLock(DoFirstCheck(s, call, token, session), call), call), call)
            == Landed(s, token, session)
  {
    var t := DoInstall(DoRecheck(DoTakeLock(DoFirstCheck(s, call, token, session), call), call), call);
    assert t.calls == s.calls && t.held == s.held;
  }

  /** A stale token is refused at the first check and only the refusal is recorded. */
  lemma StaleInsertRefused<S(!new)>(s: State<S>, call: CallId, token: AttemptToken, session: S)
    requires call !in s.calls && call !in s.held && token in s.minted && !Current(s.generations, token)
    ensures Reaches(s, [FirstCheck(call, token, session)],
                    s.(given := s.given + multiset{session}, refused := s.refused + multiset{session}))
    ensures s.sessions == Installed(s.sessions, s.generations, token, session)
  {
    Extend(s, [], s, FirstCheck(call, token, session), [FirstCheck(call, token, session)]);
  }

  /** A whole insert by call 0, with a second `begin` of the same id before its last step. */
  function WindowRun<S>(id: Uuid, session: S): seq<Action<S>> {
    [Begin(id)] + InsertRun(0, AttemptToken(id, 1), session)[..3] + [Begin(id), Install(0)]
  }

  ghost function Open<S>(id: Uuid, session: S): State<S> {
    var s1 := DoBegin(Initial<S>(), id);
    DoRecheck(DoTakeLock(DoFirstCheck(s1, 0, AttemptToken(id, 1), session), 0), 0)
  }

  lemma WindowOpens<S(!new)>(id: Uuid, session: S)
    ensures Reaches(Initial<S>(), WindowRun(id, session)[..4], Open(id, session))
    ensures var s := Open(id, session);
            && InPhase(s, 0, Cleared) && s.calls[0].token == AttemptToken(id, 1) && s.held[0] == session
            && s.generations == map[id := 1] && s.log == [] && id !in s.origin
  {
    hide Reaches, Exec;
    var s0 := Initial<S>();
    ReachesItself(s0);
    var a := WindowRun(id, session);
    var s1 := DoBegin(s0, id);
    var s2 := DoFirstCheck(s1, 0, AttemptToken(id, 1), session);
    var s3 := DoTakeLock(s2, 0);
    Extend(s0, [], s0, a[0], a[..1]);
    Extend(s0, a[..1], s1, a[1], a[..2]);
    Extend(s0, a[..2], s2, a[2], a[..3]);
    Extend(s0, a[..3], s3, a[3], a[..4]);
  }

  /** The window: an insert can be accepted although its token is stale by the time it lands. */
  lemma StaleTokenCanLand<S(!new)>(id: Uuid, session: S)
    ensures Exec(Initial<S>(), WindowRun(id, session)).Some?
    ensures var s := Exec(Initial<S>(), WindowRun(id, session)).value;
            && s.log == [Accepted(AttemptToken(id, 1), session, None)]
            && !Current(s.generations, AttemptToken(id, 1))
  {
    hide Reaches, Exec, Open;
    WindowOpens(id, session);
    var s0, a, s4 := Initial<S>(), WindowRun(id, session), Open(id, session);
    var s5 := DoBegin(s4, id);
    Extend(s0, a[..4], s4, a[4], a[..5]);
    Extend(s0, a[..5], s5, a[5], a);
    Executed(s0, a, DoInstall(s5, 0));
  }

  function Repeat<S>(a: Action<S>, n: nat): (run: seq<Action<S>>)
    ensures forall b :: b in run ==> b == a
  {
    if n == 0 then [] else Repeat(a, n - 1) + [a]
  }

  lemma {:induction false} InvalidateTimes<S(!new)>(s: State<S>, id: Uuid, n: nat)
    ensures Reaches(s, Repeat(Invalidate(id), n), s.(generations := BumpTimes(s.generations, id, n)))
    ensures BumpCount(Repeat<S>(Invalidate(id), n), id) == n
  {
    if n > 0 {
      var run := Repeat<S>(Invalidate(id), n - 1);
      InvalidateTimes(s, id, n - 1);
      Extend(s, run, s.(generations := BumpTimes(s.generations, id, n - 1)), Invalidate(id), run + [Invalidate(id)]);
      BumpCountAppend(run, [Invalidate(id)], id);
    }
  }

  lemma Chain<S(!new)>(s: State<S>, a: seq<Action<S>>, t: State<S>, b: seq<Action<S>>, u: State<S>, id: Uuid)
    requires Reaches(s, a, t) && Reaches(t, b, u)
    ensures Reaches(s, a + b, u) && BumpCount(a + b, id) == BumpCount(a, id) + BumpCount(b, id)
  {
    ExecAppend(s, a, b);
    BumpCountAppend(a, b, id);
  }

  /** Begin an attempt and let it install without interference. */
  function AttemptRun<S>(id: Uuid, generation: Generation, session: S): seq<Action<S>> {
    [Begin(id)] + InsertRun(0, AttemptToken(id, generation), session)
  }

  lemma AttemptLands<S(!new)>(s: State<S>, id: Uuid, session: S)
    requires s.holder == None && 0 !in s.calls && 0 !in s.held
    ensures var g := NextGeneration(s.generations, id);
            Reaches(s, AttemptRun(id, g, session), Landed(DoBegin(s, id), AttemptToken(id, g), session))
    ensures BumpCount(AttemptRun<S>(id, NextGeneration(s.generations, id), session), id) == 1
  {
    var token := AttemptToken(id, NextGeneration(s.generations, id));
    var begun := DoBegin(s, id);
    var run := InsertRun(0, token, session);
    Extend(s, [], s, Begin(id), [Begin(id)]);
    UndisturbedInsert(begun, 0, token, session);
    Chain(s, [Begin(id)], begun, run, Landed(begun, token, session), id);
    BumpFree(run, id);
    BumpFree<S>([Begin(id)][1..], id);
  }

  lemma {:induction false} BumpFree<S(!new)>(run: seq<Action<S>>, id: Uuid)
    requires forall a :: a in run ==> !Bumps(a, id)
    ensures BumpCount(run, id) == 0
  {
    if run != [] {
      BumpFree(run[1..], id);
    }
  }

  lemma TwoAttempts<S(!new)>(s: State<S>, id: Uuid, g: Generation, h: Generation, first: S, second: S)
    requires s.holder == None && s.calls == map[] && s.held == map[] && id !in s.origin
    requires g == NextGeneration(s.generations, id) && h == (g + 1) % GENERATION_COUNT
    ensures var run := AttemptRun(id, g, first) + AttemptRun(id, h, second);
            && BumpCount(run, id) == 2 && Exec(s, run).Some?
            && Exec(s, run).value.log ==
               s.log + [Accepted(AttemptToken(id, g), first, None),
                        Accepted(AttemptToken(id, h), second, Some(AttemptToken(id, g)))]
  {
    var t := Landed(DoBegin(s, id), AttemptToken(id, g), first);
    AttemptLands(s, id, first);
    AttemptLands(t, id, second);
    Chain(s, AttemptRun(id, g, first), t, AttemptRun(id, h, second),
          Landed(DoBegin(t, id), AttemptToken(id, h), second), id);
  }

  /**
   * The bound on bumps is exact: with 2^64 of them the counter wraps, and a run without any `forget`
   * accepts generation 2^64 - 1 before generation 0.
   */
  lemma WrapBreaksOrder<S(!new)>(id: Uuid, first: S, second: S, n: nat)
    requires n + 2 == GENERATION_COUNT
    ensures var run := Repeat(Invalidate(id), n) + (AttemptRun(id, n + 1, first) + AttemptRun(id, 0, second));
            && Forget(id) !in run && BumpCount(run, id) == n + 2
            && Exec(Initial<S>(), run).Some?
            && Exec(Initial<S>(), run).value.log ==
               [Accepted(AttemptToken(id, n + 1), first, None),
                Accepted(AttemptToken(id, 0), second, Some(AttemptToken(id, n + 1)))]
  {
    hide BumpTimes;
    var s0 := Initial<S>();
    var bumps := Repeat<S>(Invalidate(id), n);
    var attempts := AttemptRun(id, n + 1, first) + AttemptRun(id, 0, second);
    var s1 := s0.(generations := BumpTimes(s0.generations, id, n));
    InvalidateTimes(s0, id, n);
    BumpTimesValue(s0.generations, id, n);
    TwoAttempts(s1, id, n + 1, 0, first, second);
    Chain(s0, bumps, s1, attempts, Exec(s1, attempts).value, id);
  }

  /** So is the condition that the id is not forgotten: two attempts, `forget`, and one attempt more. */
  lemma ForgetBreaksOrder<S(!new)>(id: Uuid, x: S, y: S, z: S)
    ensures var run := AttemptRun(id, 1, x) + AttemptRun(id, 2, y) + [Forget(id)] + AttemptRun(id, 1, z);
            && BumpCount(run, id) == 3
            && Exec(Initial<S>(), run).Some?
            && Exec(Initial<S>(), run).value.log ==
               [Accepted(AttemptToken(id, 1), x, None),
                Accepted(AttemptToken(id, 2), y, Some(AttemptToken(id, 1))),
                Accepted(AttemptToken(id, 1), z, Some(AttemptToken(id, 2)))]
  {
    var s0 := Initial<S>();
    var s1 := Landed(DoBegin(s0, id), AttemptToken(id, 1), x);
    var s2 := Landed(DoBegin(s1, id), AttemptToken(id, 2), y);
    var s3 := s2.(generations := s2.generations - {id});
    var s4 := Landed(DoBegin(s3, id), AttemptToken(id, 1), z);
    var a, b, c := AttemptRun(id, 1, x), AttemptRun(id, 2, y), AttemptRun(id, 1, z);
    AttemptLands(s0, id, x);
    AttemptLands(s1, id, y);
    Extend(s2, [], s2, Forget(id), [Forget(id)]);
    AttemptLands(s3, id, z);
    Chain(s0, a, s1, b, s2, id);
    Chain(s0, a + b, s2, [Forget(id)], s3, id);
    Chain(s0, a + b + [Forget(id)], s3, c, s4, id);
    BumpFree<S>([Forget(id)], id);
  }
}

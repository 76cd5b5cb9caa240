/** The connection manager itself: three maps that `connect` and `disconnect` keep in lockstep. */
module ConnectionManagers {
  import opened Wrappers
  import opened ConnectionAttempts
  import opened Sessions
  import P = ConnectProtocol

  type Driver = P.Driver

  datatype DriverError = DriverError(message: string)

  datatype ManagerError =
    | UnknownDatabaseType(databaseType: string)
    | NotFound(id: Uuid)
    | Superseded(id: Uuid)
    | DriverFailed(error: DriverError)

  datatype ConnectionEntry = ConnectionEntry(driver: Driver, databaseType: string, connectedAt: nat)

  function Drivers(entries: map<Uuid, ConnectionEntry>): map<Uuid, Driver> {
    map id | id in entries :: entries[id].driver
  }

  /** `closed` counts the calls of `disconnect` on drivers, the manager's effect on the outside. */
  class ConnectionManager {
    const attempts: ConnectionAttemptRegistry
    const sessions: SessionRegistry<Driver>
    var factories: set<string>
    var entries: map<Uuid, ConnectionEntry>
    var closed: multiset<Driver>

    constructor (factories: set<string>)
      ensures Lockstep() && fresh(attempts) && fresh(sessions)
      ensures entries == map[] && closed == multiset{} && this.factories == factories
    {
      attempts := new ConnectionAttemptRegistry();
      sessions := new SessionRegistry<Driver>();
      this.factories := factories;
      entries := map[];
      closed := multiset{};
    }

    /** The entries clients see and the fenced sessions hold the same driver for the same ids. */
    ghost predicate Lockstep()
      reads this, sessions
    {
      Drivers(entries) == sessions.sessions
    }

    ghost predicate Unused(id: Uuid)
      reads this, attempts, sessions
    {
      id !in attempts.generations && id !in sessions.sessions && id !in entries
    }

    /**
     * Opens a connection under the fresh `id`. The driver the factory made is `driver`, and `dial` is
     * the error of its own connect, if it fails.
     */
    method Connect(databaseType: string, id: Uuid, driver: Driver, dial: Option<DriverError>, now: nat)
      returns (r: Result<Uuid, ManagerError>)
      requires Unused(id)
      modifies this`entries, this`closed, attempts, sessions
      ensures old(Lockstep()) ==> Lockstep()
      ensures closed == old(closed)
      ensures databaseType !in factories ==>
                r == Err(UnknownDatabaseType(databaseType)) && attempts.generations == old(attempts.generations)
      ensures databaseType in factories && dial.Some? ==>
                r == Err(DriverFailed(dial.value)) && attempts.generations == old(attempts.generations)[id := 2]
      ensures r.Err? ==> entries == old(entries) && sessions.sessions == old(sessions.sessions)
      ensures databaseType in factories && dial.None? ==>
                && r == Ok(id)
                && attempts.generations == old(attempts.generations)[id := 1]
                && sessions.sessions == old(sessions.sessions)[id := driver]
                && entries == old(entries)[id := ConnectionEntry(driver, databaseType, now)]
    {
      if databaseType !in factories {
        return Err(UnknownDatabaseType(databaseType));
      }
      var token := attempts.Begin(id);
      if dial.Some? {
        attempts.Invalidate(id);
        return Err(DriverFailed(dial.value));
      }
      var finished := FinishConnect(token, driver);
      match finished {
        case Err(error) =>
          return Err(error);
        case Ok(_) =>
          entries := entries[id := ConnectionEntry(driver, databaseType, now)];
          return Ok(id);
      }
    }

    /**
     * Installs `driver` if the token is current, and disconnects whichever driver loses: the one
     * displaced, or, for a superseded token, `driver` itself.
     */
    method FinishConnect(token: AttemptToken, driver: Driver) returns (r: Result<(), ManagerError>)
      modifies this`closed, sessions
      ensures var old_sessions := old(sessions.sessions);
              var id := token.connectionId;
              if Current(attempts.generations, token) then
                && r == Ok(())
                && sessions.sessions == old_sessions[id := driver]
                && closed == old(closed) + (if id in old_sessions then multiset{old_sessions[id]} else multiset{})
              else
                && r == Err(Superseded(id))
                && sessions.sessions == old_sessions
                && closed == old(closed) + multiset{driver}
    {
      var inserted := sessions.InsertIfCurrent(attempts, token, driver);
      match inserted {
        case Ok(None) =>
          return Ok(());
        case Ok(Some(previous)) =>
          closed := closed + multiset{previous};
          return Ok(());
        case Err(orphaned) =>
          closed := closed + multiset{orphaned};
          return Err(Superseded(token.connectionId));
      }
    }

    /** Closes a connection; an unknown id is a success that closes nothing. */
    method Disconnect(id: Uuid, close: Option<DriverError>) returns (r: Result<(), ManagerError>)
      modifies this`entries, this`closed, attempts, sessions
      ensures old(Lockstep()) ==> Lockstep()
      ensures Unused(id)
      ensures entries == old(entries) - {id}
      ensures sessions.sessions == old(sessions.sessions) - {id}
      ensures attempts.generations == old(attempts.generations) - {id}
      ensures if id in old(entries) then
                && closed == old(closed) + multiset{old(entries)[id].driver}
                && r == if close.Some? then Err(DriverFailed(close.value)) else Ok(())
              else
                closed == old(closed) && r == Ok(())
    {
      var entry := Lookup(entries, id);
      entries := entries - {id};
      var _ := sessions.Remove(id);
      attempts.Forget(id);
      match entry {
        case Some(e) =>
          closed := closed + multiset{e.driver};
          if close.Some? {
            return Err(DriverFailed(close.value));
          }
          return Ok(());
        case None =>
          return Ok(());
      }
    }

    method Get(id: Uuid) returns (r: Result<Driver, ManagerError>)
      ensures r == if id in entries then Ok(entries[id].driver) else Err(NotFound(id))
    {
      if id in entries {
        return Ok(entries[id].driver);
      }
      return Err(NotFound(id));
    }
  }

  /**
   * Run without interference on an id that no map holds, the protocol's steps have the effect that
   * `Connect` promises, and the session displaced is none.
   */
  lemma UndisturbedConnect(s: P.State, id: Uuid, driver: Driver)
    requires P.Ready(s, id, driver)
    ensures P.Exec(s, P.ConnectRun(id, driver)).Some?
    ensures var t := P.Exec(s, P.ConnectRun(id, driver)).value;
            && t.generations == s.generations[id := 1]
            && t.sessions == s.sessions[id := driver]
            && t.entries == s.entries[id := driver]
            && t.closed == s.closed && t.attempts == s.attempts && t.holder == None
  {
    hide P.Reaches, P.Exec;
    var a := P.ConnectRun(id, driver);
    var s6 := P.AfterInstall(s, id, driver);
    P.ConnectSteps(s, id, driver);
    P.Extend(s, a[..6], s6, a[6], a);
    P.Executed(s, a, P.DoPublish(s6, id));
    assert P.DoPublish(s6, id).attempts == s.attempts;
  }

  /** The two steps of a connect whose driver fails leave a counter of two behind, as `Connect` does. */
  lemma UndisturbedFailure(s: P.State, id: Uuid, driver: Driver)
    requires P.Ready(s, id, driver)
    ensures var run := [P.StartConnect(id, driver), P.DialFails(id)];
            && P.Exec(s, run).Some?
            && var t := P.Exec(s, run).value;
               && t.generations == s.generations[id := 2]
               && t.sessions == s.sessions && t.entries == s.entries
               && t.closed == s.closed && t.attempts == s.attempts && t.holder == None
  {
    hide P.Reaches, P.Exec;
    var run := [P.StartConnect(id, driver), P.DialFails(id)];
    var s1 := P.DoStartConnect(s, id, driver);
    P.ReachesItself(s);
    P.Extend(s, [], s, run[0], run[..1]);
    P.Extend(s, run[..1], s1, run[1], run);
    P.Executed(s, run, P.DoDialFails(s1, id));
    assert P.DoDialFails(s1, id).attempts == s.attempts;
  }

  /** The two steps of a connect that finds itself superseded have the effect of the refusal in `FinishConnect`. */
  lemma UndisturbedRefusal(s: P.State, id: Uuid)
    requires P.At(s, id, P.Dialed) && !P.StillCurrent(s, id)
    ensures var run := [P.FirstCheck(id), P.DropOrphan(id)];
            && P.Exec(s, run).Some?
            && var t := P.Exec(s, run).value;
               && t.closed == s.closed + multiset{s.attempts[id].driver} && t.attempts == s.attempts - {id}
               && t.generations == s.generations && t.sessions == s.sessions && t.entries == s.entries
               && t.holder == s.holder
  {
    hide P.Reaches, P.Exec;
    var run := [P.FirstCheck(id), P.DropOrphan(id)];
    var s1 := P.Moved(s, id, P.Orphaned);
    P.ReachesItself(s);
    P.Extend(s, [], s, run[0], run[..1]);
    P.Extend(s, run[..1], s1, run[1], run);
    P.Executed(s, run, P.DoDropOrphan(s1, id));
    assert P.DoDropOrphan(s1, id).attempts == s.attempts - {id};
  }

  function DisconnectRun(call: P.CallId, id: Uuid): seq<P.Action> {
    [P.StartDisconnect(call, id), P.RemoveSession(call), P.ForgetAttempt(call), P.CloseDriver(call)]
  }

  /** The four steps of a disconnect have the effect that `Disconnect` promises. */
  lemma UndisturbedDisconnect(s: P.State, call: P.CallId, id: Uuid)
    requires call !in s.closings && s.holder == None
    ensures P.Exec(s, DisconnectRun(call, id)).Some?
    ensures var t := P.Exec(s, DisconnectRun(call, id)).value;
            && t.entries == s.entries - {id} && t.sessions == s.sessions - {id} && t.generations == s.generations - {id}
            && t.closed == s.closed + (if id in s.entries then multiset{s.entries[id]} else multiset{})
            && t.closings == s.closings && t.attempts == s.attempts
  {
    hide P.Reaches, P.Exec;
    var run := DisconnectRun(call, id);
    var s1 := P.DoStartDisconnect(s, call, id);
    var s2 := P.DoRemoveSession(s1, call);
    var s3 := P.DoForgetAttempt(s2, call);
    P.ReachesItself(s);
    P.Extend(s, [], s, run[0], run[..1]);
    P.Extend(s, run[..1], s1, run[1], run[..2]);
    P.Extend(s, run[..2], s2, run[2], run[..3]);
    P.Extend(s, run[..3], s3, run[3], run);
    P.Executed(s, run, P.DoCloseDriver(s3, call));
    assert P.DoCloseDriver(s3, call).closings == s.closings;
  }
}

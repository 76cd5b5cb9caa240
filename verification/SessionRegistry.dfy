/** Session storage per connection id, where only the current attempt may install a session. */
module Sessions {
  import opened Wrappers
  import opened ConnectionAttempts

  /** What an undisturbed `insert_if_current` leaves in the session map. */
  function Installed<S>(sessions: map<Uuid, S>, generations: Generations, token: AttemptToken, session: S)
    : map<Uuid, S>
  {
    if Current(generations, token) then sessions[token.connectionId := session] else sessions
  }

  function Lookup<K, V>(m: map<K, V>, k: K): Option<V> {
    if k in m then Some(m[k]) else None
  }

  class SessionRegistry<S> {
    var sessions: map<Uuid, S>

    constructor ()
      ensures sessions == map[]
    {
      sessions := map[];
    }

    /**
     * An accepted session is stored and its predecessor handed to the caller; a refused session is
     * handed back and nothing changes. Both checks see one value of the counters here, because
     * nothing else runs; `InsertProtocol` drops that assumption.
     */
    method InsertIfCurrent(registry: ConnectionAttemptRegistry, token: AttemptToken, session: S)
      returns (r: Result<Option<S>, S>)
      modifies this
      ensures sessions == Installed(old(sessions), registry.generations, token, session)
      ensures r == if Current(registry.generations, token)
                   then Ok(Lookup(old(sessions), token.connectionId)) else Err(session)
    {
      var current := registry.IsCurrent(token);
      if !current {
        return Err(session);
      }
      current := registry.IsCurrent(token);
      if !current {
        return Err(session);
      }
      var previous := Lookup(sessions, token.connectionId);
      sessions := sessions[token.connectionId := session];
      return Ok(previous);
    }

    method Remove(connectionId: Uuid) returns (r: Option<S>)
      modifies this
      ensures sessions == old(sessions) - {connectionId}
      ensures r == Lookup(old(sessions), connectionId)
    {
      r := Lookup(sessions, connectionId);
      sessions := sessions - {connectionId};
    }

    method Contains(connectionId: Uuid) returns (found: bool)
      ensures found <==> connectionId in sessions
    {
      found := connectionId in sessions;
    }
  }
}

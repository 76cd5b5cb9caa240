/** The generation counter per connection id that fences off superseded connect attempts. */
module ConnectionAttempts {

  type Uuid = nat

  /** Generations are 64-bit and wrap around. */
  const GENERATION_COUNT: nat := 0x1_0000_0000_0000_0000

  type Generation = g: nat | g < GENERATION_COUNT

  type Generations = map<Uuid, Generation>

  datatype AttemptToken = AttemptToken(connectionId: Uuid, generation: Generation)

  function NextGeneration(generations: Generations, id: Uuid): Generation {
    if id in generations then (generations[id] + 1) % GENERATION_COUNT else 1
  }

  function Bump(generations: Generations, id: Uuid): Generations {
    generations[id := NextGeneration(generations, id)]
  }

  predicate Current(generations: Generations, token: AttemptToken) {
    token.connectionId in generations && generations[token.connectionId] == token.generation
  }

  class ConnectionAttemptRegistry {
    var generations: Generations

    constructor ()
      ensures generations == map[]
    {
      generations := map[];
    }

    method Begin(connectionId: Uuid) returns (token: AttemptToken)
      modifies this
      ensures generations == Bump(old(generations), connectionId)
      ensures token.connectionId == connectionId && Current(generations, token)
      ensures forall t: AttemptToken :: t.connectionId == connectionId && Current(old(generations), t) ==> !Current(generations, t)
    {
      var next: Generation := 1;
      if connectionId in generations {
        next := (generations[connectionId] + 1) % GENERATION_COUNT;
      }
      generations := generations[connectionId := next];
      token := AttemptToken(connectionId, next);
    }

    method IsCurrent(token: AttemptToken) returns (current: bool)
      ensures current <==> Current(generations, token)
    {
      current := token.connectionId in generations && generations[token.connectionId] == token.generation;
    }

    method Invalidate(connectionId: Uuid)
      modifies this
      ensures generations == Bump(old(generations), connectionId)
      ensures forall t: AttemptToken :: t.connectionId == connectionId && Current(old(generations), t) ==> !Current(generations, t)
    {
      var next: Generation := 1;
      if connectionId in generations {
        next := (generations[connectionId] + 1) % GENERATION_COUNT;
      }
      generations := generations[connectionId := next];
    }

    method Forget(connectionId: Uuid)
      modifies this
      ensures generations == old(generations) - {connectionId}
    {
      generations := generations - {connectionId};
    }
  }

  function BumpTimes(generations: Generations, id: Uuid, n: nat): Generations {
    if n == 0 then generations else Bump(BumpTimes(generations, id, n - 1), id)
  }

  lemma WrapOnce(a: nat)
    ensures (a % GENERATION_COUNT + 1) % GENERATION_COUNT == (a + 1) % GENERATION_COUNT
  {
  }

  lemma {:induction false} BumpTimesValue(generations: Generations, id: Uuid, n: nat)
    ensures id in generations ==>
              id in BumpTimes(generations, id, n) &&
              BumpTimes(generations, id, n)[id] == (generations[id] + n) % GENERATION_COUNT
    ensures id !in generations && n > 0 ==>
              id in BumpTimes(generations, id, n) && BumpTimes(generations, id, n)[id] == n % GENERATION_COUNT
  {
    if n > 0 {
      BumpTimesValue(generations, id, n - 1);
      WrapOnce(n - 1);
      if id in generations {
        WrapOnce(generations[id] + n - 1);
      }
    }
  }

  /**
   * How long a token stays superseded: after `n` further `begin` or `invalidate` calls on its id it
   * is current only if `n` is a multiple of 2^64.
   */
  lemma TokenLifetime(generations: Generations, token: AttemptToken, n: nat)
    requires Current(generations, token)
    ensures Current(BumpTimes(generations, token.connectionId, n), token) <==> n % GENERATION_COUNT == 0
  {
    BumpTimesValue(generations, token.connectionId, n);
  }

  /**
   * What becomes of any token on an id that has been forgotten: it is current again after exactly
   * those numbers of further bumps that collide with its generation.
   */
  lemma TokenAfterForget(generations: Generations, token: AttemptToken, n: nat)
    ensures var forgotten := generations - {token.connectionId};
            Current(BumpTimes(forgotten, token.connectionId, n), token) <==>
            n > 0 && n % GENERATION_COUNT == token.generation
  {
    BumpTimesValue(generations - {token.connectionId}, token.connectionId, n);
  }

  /**
   * The documentation of `forget` says a token from before it stays stale even when generation
   * numbers collide. It does not: the first token of an id is revived by `forget` and one `begin`.
   */
  lemma ForgetRevivesToken(id: Uuid)
    ensures var first := AttemptToken(id, 1);
            var begun := Bump(map[], id);
            Current(begun, first) && !Current(begun - {id}, first) && Current(Bump(begun - {id}, id), first)
  {
    TokenAfterForget(Bump(map[], id), AttemptToken(id, 1), 1);
    assert BumpTimes(Bump(map[], id) - {id}, id, 0) == Bump(map[], id) - {id};
  }
}

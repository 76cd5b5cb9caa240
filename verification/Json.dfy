/** JSON values as the parser leaves them. */
module Json {
  import opened Wrappers
  import opened Encoding

  /** A whole number the parser keeps exact; any other number is a float. */
  type Whole = n: int | I64_MIN <= n <= U64_MAX

  /** A floating-point number, kept as its text. */
  datatype Float = Float(token: string)

  datatype Json =
    | Null
    | Bool(value: bool)
    | Integer(n: Whole)
    | Real(float: Float)
    | String(text: string)
    | Array(items: seq<Json>)
    | Object(members: Members)

  type Members = seq<(string, Json)>

  /** The member called `key`, if there is one. */
  function Get(members: Members, key: string): Option<Json> {
    if members == [] then None
    else if members[0].0 == key then Some(members[0].1)
    else Get(members[1..], key)
  }

  /** A member that is written only when there is one. */
  function Optional(key: string, value: Option<Json>): Members {
    if value.None? then [] else [(key, value.value)]
  }

  /** Looking up in a short object. */
  lemma GetFirst(key: string, value: Json, rest: Members, wanted: string)
    ensures Get([(key, value)] + rest, wanted) == if key == wanted then Some(value) else Get(rest, wanted)
  {
    assert ([(key, value)] + rest)[1..] == rest;
  }

  lemma {:induction false} GetAbsent(members: Members, key: string)
    requires forall i :: 0 <= i < |members| ==> members[i].0 != key
    ensures Get(members, key) == None
  {
    if members != [] {
      GetAbsent(members[1..], key);
    }
  }

  lemma GetOptional(key: string, value: Option<Json>, wanted: string)
    ensures Get(Optional(key, value), wanted) == if key == wanted then value else None
  {
    if value.Some? {
      GetFirst(key, value.value, [], wanted);
      assert [(key, value.value)] + [] == [(key, value.value)];
    }
  }
}

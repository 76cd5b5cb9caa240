/** Saved connection profiles: metadata in one store and passwords in another, written one after the other. */
module Profiles {
  import opened Wrappers
  import opened Text

  datatype SslMode = Disabled | Preferred | Required | VerifyCa | VerifyIdentity

  datatype Details = Details(databaseType: string, host: string, port: nat, username: string, database: Option<string>,
                             sslMode: Option<SslMode>)

  datatype Profile = Profile(name: string, details: Details, readOnly: bool, hasPassword: bool, createdAt: nat, updatedAt: nat)

  /** No password means "leave the stored one", no flag means "leave the flag". */
  datatype SaveParams = SaveParams(name: string, details: Details, password: Option<string>, readOnly: Option<bool>)

  datatype Resolved = Resolved(details: Details, password: Option<string>, readOnly: bool)

  datatype ProfileError = EmptyName | NotFound(name: string) | MetadataFailed | SecretFailed

  /**
   * What becomes of one store operation: it works, or it fails or the process stops before it takes
   * effect, or after. Both files are replaced atomically, so there is nothing in between.
   */
  datatype Fault = Works | StopsBefore | StopsAfter

  datatype SaveFaults = SaveFaults(read: Fault, secret: Fault, metadata: Fault)

  datatype DeleteFaults = DeleteFaults(metadata: Fault, secret: Fault)

  datatype Stores = Stores(profiles: map<string, Profile>, secrets: map<string, string>)

  function SecretKey(name: string): string {
    "profile:" + name + ":password"
  }

  lemma SecretKeyInjective(a: string, b: string)
    requires SecretKey(a) == SecretKey(b)
    ensures a == b
  {
    assert a == SecretKey(a)[8..|SecretKey(a)| - 9] && b == SecretKey(b)[8..|SecretKey(b)| - 9];
  }

  // ----- The calls -----

  function HadPassword(s: Stores, name: string): bool {
    name in s.profiles && s.profiles[name].hasPassword
  }

  function WasReadOnly(s: Stores, name: string): bool {
    name in s.profiles && s.profiles[name].readOnly
  }

  function SavedProfile(s: Stores, p: SaveParams, now: nat): Profile {
    Profile(p.name, p.details, if p.readOnly.Some? then p.readOnly.value else WasReadOnly(s, p.name),
            p.password.Some? || HadPassword(s, p.name),
            if p.name in s.profiles then s.profiles[p.name].createdAt else now, now)
  }

  /** The stores after a save: the password goes first, and the metadata only if that worked. */
  function Saved(s: Stores, p: SaveParams, now: nat, f: SaveFaults): Stores {
    if p.name == "" || !f.read.Works? then s
    else
      var secrets := if p.password.Some? && !f.secret.StopsBefore? then s.secrets[SecretKey(p.name) := p.password.value] else s.secrets;
      if (p.password.Some? && !f.secret.Works?) || f.metadata.StopsBefore? then s.(secrets := secrets)
      else Stores(s.profiles[p.name := SavedProfile(s, p, now)], secrets)
  }

  function SaveResult(p: SaveParams, f: SaveFaults): Result<(), ProfileError> {
    if p.name == "" then Err(EmptyName)
    else if !f.read.Works? then Err(MetadataFailed)
    else if p.password.Some? && !f.secret.Works? then Err(SecretFailed)
    else if !f.metadata.Works? then Err(MetadataFailed)
    else Ok(())
  }

  /** The stores after a delete: the metadata goes first, and the password only if that worked. */
  function Deleted(s: Stores, name: string, f: DeleteFaults): Stores {
    if name == "" || f.metadata.StopsBefore? then s
    else
      var profiles := s.profiles - {name};
      if name !in s.profiles || !f.metadata.Works? || f.secret.StopsBefore? then s.(profiles := profiles)
      else Stores(profiles, s.secrets - {SecretKey(name)})
  }

  function DeleteResult(s: Stores, name: string, f: DeleteFaults): Result<(), ProfileError> {
    if name == "" then Err(EmptyName)
    else if !f.metadata.Works? then Err(MetadataFailed)
    else if name !in s.profiles then Err(NotFound(name))
    else if !f.secret.Works? then Err(SecretFailed)
    else Ok(())
  }

  function StoredPassword(s: Stores, name: string): Option<string> {
    if SecretKey(name) in s.secrets then Some(s.secrets[SecretKey(name)]) else None
  }

  function Resolution(s: Stores, name: string): Result<Resolved, ProfileError> {
    if name == "" then Err(EmptyName)
    else if name !in s.profiles then Err(NotFound(name))
    else Ok(Resolved(s.profiles[name].details, StoredPassword(s, name), s.profiles[name].readOnly))
  }

  class ConnectionProfileManager {
    var profiles: map<string, Profile>
    var secrets: map<string, string>

    constructor ()
      ensures Now() == EMPTY
    {
      profiles := map[];
      secrets := map[];
    }

    ghost function Now(): Stores
      reads this
    {
      Stores(profiles, secrets)
    }

    method Save(p: SaveParams, now: nat, f: SaveFaults) returns (r: Result<(), ProfileError>)
      modifies this
      ensures Now() == Saved(old(Now()), p, now, f)
      ensures r == SaveResult(p, f)
    {
      if p.name == "" {
        return Err(EmptyName);
      }
      if !f.read.Works? {
        return Err(MetadataFailed);
      }
      var existing := if p.name in profiles then Some(profiles[p.name]) else None;
      var hasPassword := existing.Some? && existing.value.hasPassword;
      if p.password.Some? {
        if !f.secret.StopsBefore? {
          secrets := secrets[SecretKey(p.name) := p.password.value];
        }
        if !f.secret.Works? {
          return Err(SecretFailed);
        }
        hasPassword := true;
      }
      var readOnly := if p.readOnly.Some? then p.readOnly.value else existing.Some? && existing.value.readOnly;
      var createdAt := if existing.Some? then existing.value.createdAt else now;
      if !f.metadata.StopsBefore? {
        profiles := profiles[p.name := Profile(p.name, p.details, readOnly, hasPassword, createdAt, now)];
      }
      if !f.metadata.Works? {
        return Err(MetadataFailed);
      }
      return Ok(());
    }

    method Resolve(name: string) returns (r: Result<Resolved, ProfileError>)
      ensures r == Resolution(Now(), name)
    {
      if name == "" {
        return Err(EmptyName);
      }
      if name !in profiles {
        return Err(NotFound(name));
      }
      var profile := profiles[name];
      var password := if SecretKey(name) in secrets then Some(secrets[SecretKey(name)]) else None;
      return Ok(Resolved(profile.details, password, profile.readOnly));
    }

    method Delete(name: string, f: DeleteFaults) returns (r: Result<(), ProfileError>)
      modifies this
      ensures Now() == Deleted(old(Now()), name, f)
      ensures r == DeleteResult(old(Now()), name, f)
    {
      if name == "" {
        return Err(EmptyName);
      }
      var removed := name in profiles;
      if !f.metadata.StopsBefore? {
        profiles := profiles - {name};
      }
      if !f.metadata.Works? {
        return Err(MetadataFailed);
      }
      if !removed {
        return Err(NotFound(name));
      }
      if !f.secret.StopsBefore? {
        secrets := secrets - {SecretKey(name)};
      }
      if !f.secret.Works? {
        return Err(SecretFailed);
      }
      return Ok(());
    }
  }

  // ----- Runs -----

  datatype Call = SaveCall(p: SaveParams, now: nat, saveFaults: SaveFaults) | DeleteCall(name: string, deleteFaults: DeleteFaults)

  const EMPTY := Stores(map[], map[])

  function Apply(s: Stores, c: Call): Stores {
    match c
    case SaveCall(p, now, f) => Saved(s, p, now, f)
    case DeleteCall(name, f) => Deleted(s, name, f)
  }

  function Run(s: Stores, calls: seq<Call>): Stores
    decreases |calls|
  {
    if calls == [] then s else Run(Apply(s, calls[0]), calls[1..])
  }

  predicate FaultFree(c: Call) {
    match c
    case SaveCall(_, _, f) => f == SaveFaults(Works, Works, Works)
    case DeleteCall(_, f) => f == DeleteFaults(Works, Works)
  }

  /** No call completes only in part. */
  predicate AllFaultFree(calls: seq<Call>) {
    forall i :: 0 <= i < |calls| ==> FaultFree(calls[i])
  }

  // ----- A profile that says it has a password has one -----

  predicate PasswordsHeld(s: Stores) {
    forall name :: name in s.profiles && s.profiles[name].hasPassword ==> SecretKey(name) in s.secrets
  }

  lemma HeldStep(s: Stores, c: Call)
    requires PasswordsHeld(s)
    ensures PasswordsHeld(Apply(s, c))
  {
    var next := Apply(s, c);
    var target := if c.SaveCall? then c.p.name else c.name;
    forall name | name in next.profiles && next.profiles[name].hasPassword
      ensures SecretKey(name) in next.secrets
    {
      if SecretKey(name) == SecretKey(target) {
        SecretKeyInjective(name, target);
      }
    }
  }

  /** In every run, whatever fails or stops wherever, a profile marked as having a password has one stored. */
  lemma {:induction false} PasswordsAlwaysHeld(s: Stores, calls: seq<Call>)
    requires PasswordsHeld(s)
    ensures PasswordsHeld(Run(s, calls))
    decreases |calls|
  {
    if calls != [] {
      HeldStep(s, calls[0]);
      PasswordsAlwaysHeld(Apply(s, calls[0]), calls[1..]);
    }
  }

  // ----- Read-only stays on -----

  /** The call may take the read-only mark off a profile: it says so, or deletes the profile. */
  predicate MayClear(c: Call, name: string) {
    match c
    case SaveCall(p, _, _) => p.name == name && p.readOnly == Some(false)
    case DeleteCall(n, _) => n == name
  }

  /** In every run, with any failures, read-only stays on until a call asks for the opposite or for deletion. */
  lemma {:induction false} ReadOnlyStays(s: Stores, calls: seq<Call>, name: string)
    requires WasReadOnly(s, name)
    requires forall i :: 0 <= i < |calls| ==> !MayClear(calls[i], name)
    ensures WasReadOnly(Run(s, calls), name)
    decreases |calls|
  {
    if calls != [] {
      assert !MayClear(calls[0], name);
      ReadOnlyStays(Apply(s, calls[0]), calls[1..], name);
    }
  }

  /** Saving a profile again, with any failures, never changes when it was created. */
  lemma {:induction false} CreationTimeStays(s: Stores, calls: seq<Call>, name: string)
    requires name in s.profiles
    requires forall i :: 0 <= i < |calls| && calls[i].DeleteCall? ==> calls[i].name != name
    ensures name in Run(s, calls).profiles && Run(s, calls).profiles[name].createdAt == s.profiles[name].createdAt
    decreases |calls|
  {
    if calls != [] {
      assert calls[0].DeleteCall? ==> calls[0].name != name;
      CreationTimeStays(Apply(s, calls[0]), calls[1..], name);
    }
  }

  // ----- Exactly the passwords of the profiles -----

  /** A password is stored exactly for the profiles that say they have one, and for no unknown name. */
  ghost predicate Exact(s: Stores) {
    forall name :: SecretKey(name) in s.secrets <==> HadPassword(s, name)
  }

  /** The call stops between its two writes and leaves a password that no profile owns up to. */
  predicate Strands(s: Stores, c: Call) {
    match c
    case SaveCall(p, _, f) =>
      && p.name != "" && f.read.Works? && p.password.Some? && !HadPassword(s, p.name)
      && (f.secret.StopsAfter? || (f.secret.Works? && f.metadata.StopsBefore?))
    case DeleteCall(name, f) =>
      && name != "" && HadPassword(s, name)
      && (f.metadata.StopsAfter? || (f.metadata.Works? && f.secret.StopsBefore?))
  }

  lemma OthersUntouched(s: Stores, c: Call, name: string)
    requires name != if c.SaveCall? then c.p.name else c.name
    ensures SecretKey(name) in Apply(s, c).secrets <==> SecretKey(name) in s.secrets
    ensures StoredPassword(Apply(s, c), name) == StoredPassword(s, name)
    ensures name in Apply(s, c).profiles <==> name in s.profiles
    ensures name in s.profiles ==> Apply(s, c).profiles[name] == s.profiles[name]
  {
    var target := if c.SaveCall? then c.p.name else c.name;
    if SecretKey(name) == SecretKey(target) {
      SecretKeyInjective(name, target);
    }
  }

  /** From stores that match, a call leaves them matching exactly if it does not strand a password. */
  lemma ExactUnlessStranded(s: Stores, c: Call)
    requires Exact(s)
    ensures Exact(Apply(s, c)) <==> !Strands(s, c)
  {
    var next := Apply(s, c);
    var target := if c.SaveCall? then c.p.name else c.name;
    assert SecretKey(target) in s.secrets <==> HadPassword(s, target);
    assert (SecretKey(target) in next.secrets <==> HadPassword(next, target)) <==> !Strands(s, c);
    forall name | name != target
      ensures SecretKey(name) in next.secrets <==> HadPassword(next, name)
    {
      OthersUntouched(s, c, name);
      assert SecretKey(name) in s.secrets <==> HadPassword(s, name);
    }
  }

  /** If every call completes, passwords and profiles match throughout. */
  lemma {:induction false} FaultFreeIsExact(s: Stores, calls: seq<Call>)
    requires Exact(s) && AllFaultFree(calls)
    ensures Exact(Run(s, calls))
    decreases |calls|
  {
    if calls != [] {
      assert FaultFree(calls[0]);
      ExactUnlessStranded(s, calls[0]);
      FaultFreeIsExact(Apply(s, calls[0]), calls[1..]);
    }
  }

  lemma EmptyIsExact()
    ensures Exact(EMPTY) && PasswordsHeld(EMPTY)
  {
  }

  /**
   * A profile saved without a password resolves without one exactly if none was stored under its name
   * before: after a save that completes, the password resolved is the given one, or else the stored one.
   */
  lemma SaveThenResolve(s: Stores, p: SaveParams, now: nat)
    requires p.name != ""
    ensures Resolution(Saved(s, p, now, SaveFaults(Works, Works, Works)), p.name) ==
            Ok(Resolved(p.details, if p.password.Some? then p.password else StoredPassword(s, p.name),
                        if p.readOnly.Some? then p.readOnly.value else WasReadOnly(s, p.name)))
  {
  }

  /** A save that reports success has had its whole effect; one that reports a bad name has had none. */
  lemma SaveOkMeansDone(s: Stores, p: SaveParams, now: nat, f: SaveFaults)
    ensures SaveResult(p, f).Ok? <==> p.name != "" && f.read.Works? && f.metadata.Works? && (p.password.Some? ==> f.secret.Works?)
    ensures SaveResult(p, f).Ok? ==>
              var t := Saved(s, p, now, f);
              && p.name in t.profiles && t.profiles[p.name].name == p.name && t.profiles[p.name].details == p.details
              && t.profiles[p.name].updatedAt == now
              && t.profiles[p.name].createdAt == (if p.name in s.profiles then s.profiles[p.name].createdAt else now)
              && (p.password.Some? ==> StoredPassword(t, p.name) == p.password && t.profiles[p.name].hasPassword)
              && (p.password.None? ==>
                  StoredPassword(t, p.name) == StoredPassword(s, p.name) && t.profiles[p.name].hasPassword == HadPassword(s, p.name))
    ensures p.name == "" ==> SaveResult(p, f) == Err(EmptyName) && Saved(s, p, now, f) == s
  {
  }

  /** A delete that reports success has removed profile and password; an unknown or empty name changes nothing. */
  lemma DeleteOkMeansGone(s: Stores, name: string, f: DeleteFaults)
    ensures DeleteResult(s, name, f).Ok? <==>
            name != "" && name in s.profiles && f.metadata.Works? && f.secret.Works?
    ensures DeleteResult(s, name, f).Ok? ==>
              name !in Deleted(s, name, f).profiles && StoredPassword(Deleted(s, name, f), name) == None
    ensures name == "" ==> DeleteResult(s, name, f) == Err(EmptyName)
    ensures name != "" && name !in s.profiles && f.metadata.Works? ==> DeleteResult(s, name, f) == Err(NotFound(name))
    ensures DeleteResult(s, name, f) in [Err(EmptyName), Err(NotFound(name))] ==> Deleted(s, name, f) == s
  {
    if name !in s.profiles {
      assert s.profiles - {name} == s.profiles;
    }
  }

  /** A call on one profile, however it ends, changes nothing about what another resolves to. */
  lemma CallsAreIsolated(s: Stores, c: Call, name: string)
    requires name != if c.SaveCall? then c.p.name else c.name
    ensures Resolution(Apply(s, c), name) == Resolution(s, name)
  {
    OthersUntouched(s, c, name);
  }

  /** With matching stores, what a profile resolves to has a password exactly if the profile says so. */
  lemma ResolvesAsMarked(s: Stores, name: string)
    requires Exact(s) && name in s.profiles && name != ""
    ensures Resolution(s, name).value.password.Some? <==> s.profiles[name].hasPassword
  {
    assert SecretKey(name) in s.secrets <==> HadPassword(s, name);
  }

  /** From the start, if every call completes, a profile resolves with a password exactly if it is marked so. */
  lemma FaultFreeResolves(calls: seq<Call>, name: string)
    requires AllFaultFree(calls) && name in Run(EMPTY, calls).profiles && name != ""
    ensures var s := Run(EMPTY, calls);
            Resolution(s, name).value.password.Some? <==> s.profiles[name].hasPassword
  {
    EmptyIsExact();
    FaultFreeIsExact(EMPTY, calls);
    ResolvesAsMarked(Run(EMPTY, calls), name);
  }

  // ----- Stranded passwords over whole runs -----

  /** A password is stored under the name, and no profile of that name says it has one. */
  predicate Stranded(s: Stores, name: string) {
    SecretKey(name) in s.secrets && !HadPassword(s, name)
  }

  function Target(c: Call): string {
    if c.SaveCall? then c.p.name else c.name
  }

  /** The call gets far enough that the password under its name has an owner again, or is gone. */
  predicate Settles(s: Stores, c: Call) {
    match c
    case SaveCall(p, _, f) =>
      p.name != "" && f.read.Works? && p.password.Some? && f.secret.Works? && !f.metadata.StopsBefore?
    case DeleteCall(name, f) =>
      name != "" && name in s.profiles && f.metadata.Works? && !f.secret.StopsBefore?
  }

  lemma StrandedStep(s: Stores, c: Call, name: string)
    requires PasswordsHeld(s)
    ensures Stranded(Apply(s, c), name) <==>
            (Target(c) == name && Strands(s, c)) || (Stranded(s, name) && !(Target(c) == name && Settles(s, c)))
  {
    if Target(c) != name {
      OthersUntouched(s, c, name);
    }
  }

  /** Call `i` strands the password of `name`, and no later call settles it. */
  ghost predicate LastStrands(s: Stores, calls: seq<Call>, name: string, i: nat) {
    && i < |calls| && Target(calls[i]) == name && Strands(Run(s, calls[..i]), calls[i])
    && forall j :: i < j < |calls| ==> !(Target(calls[j]) == name && Settles(Run(s, calls[..j]), calls[j]))
  }

  lemma {:induction false} RunLast(s: Stores, calls: seq<Call>, c: Call)
    ensures Run(s, calls + [c]) == Apply(Run(s, calls), c)
    decreases |calls|
  {
    if calls == [] {
      assert [] + [c] == [c] && [c][1..] == [];
    } else {
      assert (calls + [c])[1..] == calls[1..] + [c];
      RunLast(Apply(s, calls[0]), calls[1..], c);
    }
  }

  lemma StrandsKept(s: Stores, calls: seq<Call>, c: Call, name: string, i: nat)
    requires i < |calls|
    ensures LastStrands(s, calls + [c], name, i) <==>
            LastStrands(s, calls, name, i) && !(Target(c) == name && Settles(Run(s, calls), c))
  {
    hide Run, Strands, Settles;
    var longer := calls + [c];
    assert longer[..|calls|] == calls && longer[|calls|] == c;
    assert forall j :: 0 <= j < |calls| ==> longer[..j] == calls[..j] && longer[j] == calls[j];
    if LastStrands(s, longer, name, i) {
      forall j | i < j < |calls|
        ensures !(Target(calls[j]) == name && Settles(Run(s, calls[..j]), calls[j]))
      {
        assert !(Target(longer[j]) == name && Settles(Run(s, longer[..j]), longer[j]));
      }
      assert !(Target(longer[|calls|]) == name && Settles(Run(s, longer[..|calls|]), longer[|calls|]));
    }
    if LastStrands(s, calls, name, i) && !(Target(c) == name && Settles(Run(s, calls), c)) {
      forall j | i < j < |longer|
        ensures !(Target(longer[j]) == name && Settles(Run(s, longer[..j]), longer[j]))
      {
        if j < |calls| {
          assert !(Target(calls[j]) == name && Settles(Run(s, calls[..j]), calls[j]));
        }
      }
    }
  }

  lemma StrandsNow(s: Stores, calls: seq<Call>, c: Call, name: string)
    ensures LastStrands(s, calls + [c], name, |calls|) <==> Target(c) == name && Strands(Run(s, calls), c)
  {
    assert (calls + [c])[..|calls|] == calls;
  }

  lemma NoneStrands(s: Stores, name: string)
    ensures !exists i: nat :: LastStrands(s, [], name, i)
  {
  }

  lemma StrandsWithin(s: Stores, calls: seq<Call>, name: string)
    ensures forall i: nat :: LastStrands(s, calls, name, i) ==> i < |calls|
  {
  }

  /**
   * In every run of calls that may fail or stop anywhere, a name ends with a password that no profile
   * owns exactly if some call on it stopped between its two writes and no later call on it got past them.
   */
  lemma {:induction false} StrandedExactly(s: Stores, calls: seq<Call>, name: string)
    requires PasswordsHeld(s) && !Stranded(s, name)
    ensures Stranded(Run(s, calls), name) <==> exists i: nat :: LastStrands(s, calls, name, i)
    decreases |calls|
  {
    hide Stranded, PasswordsHeld, Strands, Settles, LastStrands;
    if calls == [] {
      NoneStrands(s, name);
    } else {
      var before, c := Init(calls), Last(calls);
      assert calls == before + [c];
      PasswordsAlwaysHeld(s, before);
      RunLast(s, before, c);
      StrandedStep(Run(s, before), c, name);
      StrandedExactly(s, before, name);
      StrandsNow(s, before, c, name);
      forall i: nat | i < |before| {
        StrandsKept(s, before, c, name, i);
      }
      StrandsWithin(s, calls, name);
      StrandsWithin(s, before, name);
    }
  }

  /** So it is from the start: every marked profile has its password, and the stranded ones are exactly these. */
  lemma StoredFromStart(calls: seq<Call>, name: string)
    ensures PasswordsHeld(Run(EMPTY, calls))
    ensures Stranded(Run(EMPTY, calls), name) <==> exists i: nat :: LastStrands(EMPTY, calls, name, i)
  {
    EmptyIsExact();
    PasswordsAlwaysHeld(EMPTY, calls);
    StrandedExactly(EMPTY, calls, name);
  }

  lemma RunMore(s: Stores, c: Call, rest: seq<Call>)
    ensures Run(s, [c] + rest) == Run(Apply(s, c), rest)
  {
    assert ([c] + rest)[1..] == rest;
  }

  /**
   * Deleting a profile and recreating it without a password takes the password away exactly if the
   * delete got as far as removing it.
   */
  lemma RecreateClears(s: Stores, p: SaveParams, now: nat, f: DeleteFaults)
    requires p.name in s.profiles && p.name != "" && SecretKey(p.name) in s.secrets && p.password.None?
    ensures var again := Saved(Deleted(s, p.name, f), p, now, SaveFaults(Works, Works, Works));
            Resolution(again, p.name).value.password.None? <==> f.metadata.Works? && !f.secret.StopsBefore?
  {
    SaveThenResolve(Deleted(s, p.name, f), p, now);
  }

  /** Once the metadata is gone, deleting again only reports an error: the password stays behind. */
  lemma RetriedDeleteKeepsPassword(s: Stores, name: string, f: DeleteFaults)
    requires name !in s.profiles
    ensures DeleteResult(s, name, f).Err? && Deleted(s, name, f) == s
  {
    assert s.profiles - {name} == s.profiles;
  }

  /**
   * Deleting and recreating a profile does not always take its password away: when the delete stops
   * between its writes, the new profile, saved without a password and marked as having none, resolves
   * with the old one.
   */
  lemma OldPasswordReturns(details: Details)
    ensures var p := SaveParams("db", details, Some("old"), None);
            var calls := [SaveCall(p, 1, SaveFaults(Works, Works, Works)),
                          DeleteCall("db", DeleteFaults(Works, StopsBefore)),
                          SaveCall(p.(password := None), 2, SaveFaults(Works, Works, Works))];
            var s := Run(EMPTY, calls);
            && !HadPassword(s, "db")
            && Resolution(s, "db") == Ok(Resolved(details, Some("old"), false))
  {
    hide SecretKey;
    var p := SaveParams("db", details, Some("old"), None);
    var save, remove := SaveCall(p, 1, SaveFaults(Works, Works, Works)), DeleteCall("db", DeleteFaults(Works, StopsBefore));
    var again := SaveCall(p.(password := None), 2, SaveFaults(Works, Works, Works));
    var calls := [save, remove, again];
    RunMore(EMPTY, save, [remove, again]);
    RunMore(Apply(EMPTY, save), remove, [again]);
    RunMore(Apply(Apply(EMPTY, save), remove), again, []);
    assert calls == [save] + [remove, again] && [remove, again] == [remove] + [again] && [again] == [again] + [];
    var s2 := Apply(Apply(EMPTY, save), remove);
    assert StoredPassword(s2, "db") == Some("old") && "db" !in s2.profiles;
    SaveThenResolve(s2, p.(password := None), 2);
    assert Run(EMPTY, calls) == Apply(s2, again);
  }
}

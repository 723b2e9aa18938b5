/** Client records, their credential generations and the global access switch
    (bc250_llm_mode/connection_credentials.py:132-317; the uniqueness and key
    constraints are those of bc250_llm_mode/db.py:682-750).

    Times are numbers, labels are kept case-folded, and a call that raises
    leaves the database as it was, because its transaction is undone. */
module ClientCredentials {
  import opened Outcomes

  type ClientId = string
  type Fingerprint = string
  type Time = int

  const MAX_ACTIVE_CLIENTS := 32

  datatype Client = Client(name: string, fingerprint: Fingerprint, generation: nat, revoked: bool, revision: nat)

  datatype SecretState = ACTIVE | OVERLAP | RETIRED

  datatype Secret = Secret(fingerprint: Fingerprint, state: SecretState, expires: Option<Time>)

  /** Primary key of a secret. */
  datatype Key = Key(client: ClientId, generation: nat)

  datatype Vault = Vault(clients: map<ClientId, Client>, secrets: map<Key, Secret>, enabled: bool, accessRevision: nat)

  // ---------------------------------------------------------------- operations

  datatype Call =
    | Create(id: ClientId, name: string, fingerprint: Fingerprint)
    | Rotate(id: ClientId, revision: nat, fingerprint: Fingerprint, generation: nat, overlap: Option<Time>)
    | Revoke(id: ClientId, revision: nat)
    | RecordUse(id: ClientId, revision: nat)
    | DisableAll(revision: nat)
    | Enable(revision: nat)

  function Unrevoked(v: Vault): (ids: set<ClientId>) {
    set id | id in v.clients && !v.clients[id].revoked
  }

  predicate FingerprintTaken(v: Vault, f: Fingerprint) {
    exists k | k in v.secrets :: v.secrets[k].fingerprint == f
  }

  predicate NameTaken(v: Vault, name: string) {
    exists id | id in v.clients :: !v.clients[id].revoked && v.clients[id].name == name
  }

  function Retired(s: Secret): (r: Secret) {
    if s.state == RETIRED then s else Secret(s.fingerprint, RETIRED, None)
  }

  predicate Current(v: Vault, id: ClientId, revision: nat) {
    id in v.clients && !v.clients[id].revoked && v.clients[id].revision == revision
  }

  function Rotated(v: Vault, id: ClientId, fingerprint: Fingerprint, overlap: Option<Time>): (r: Vault)
    requires id in v.clients
  {
    var c := v.clients[id];
    var prior := Key(id, c.generation);
    var demoted :=
      if prior in v.secrets && v.secrets[prior].state == ACTIVE
      then v.secrets[prior := Secret(v.secrets[prior].fingerprint, if overlap.Some? then OVERLAP else RETIRED, overlap)]
      else v.secrets;
    v.(clients := v.clients[id := c.(fingerprint := fingerprint, generation := c.generation + 1, revision := c.revision + 1)],
       secrets := demoted[Key(id, c.generation + 1) := Secret(fingerprint, ACTIVE, None)])
  }

  /** The database after a call, or None when it raises. */
  function Attempt(v: Vault, call: Call): (r: Option<Vault>) {
    match call
    case Create(id, name, f) =>
      if |Unrevoked(v)| >= MAX_ACTIVE_CLIENTS || NameTaken(v, name) || id in v.clients
         || Key(id, 1) in v.secrets || FingerprintTaken(v, f) then None
      else Some(v.(clients := v.clients[id := Client(name, f, 1, false, 1)],
                   secrets := v.secrets[Key(id, 1) := Secret(f, ACTIVE, None)]))
    case Rotate(id, revision, f, generation, overlap) =>
      if !Current(v, id, revision) || generation != v.clients[id].generation + 1
         || Key(id, generation) in v.secrets || FingerprintTaken(v, f) then None
      else Some(Rotated(v, id, f, overlap))
    case Revoke(id, revision) =>
      if id !in v.clients || v.clients[id].revision != revision then None
      else Some(v.(clients := v.clients[id := v.clients[id].(revoked := true, revision := revision + 1)],
                   secrets := map k | k in v.secrets :: if k.client == id then Retired(v.secrets[k]) else v.secrets[k]))
    case RecordUse(id, revision) =>
      if !Current(v, id, revision) then None
      else Some(v.(clients := v.clients[id := v.clients[id].(revision := revision + 1)]))
    case DisableAll(revision) =>
      if v.accessRevision != revision then None
      else Some(Vault(map id | id in v.clients ::
                        if v.clients[id].revoked then v.clients[id]
                        else v.clients[id].(revoked := true, revision := v.clients[id].revision + 1),
                      map k | k in v.secrets :: Retired(v.secrets[k]), false, revision + 1))
    case Enable(revision) =>
      if v.accessRevision != revision then None
      else Some(v.(enabled := true, accessRevision := revision + 1))
  }

  function Apply(v: Vault, call: Call): (r: Vault) {
    match Attempt(v, call)
    case Some(next) => next
    case None => v
  }

  function Run(v: Vault, calls: seq<Call>): (r: Vault)
    decreases |calls|
  {
    if calls == [] then v else Run(Apply(v, calls[0]), calls[1..])
  }

  // -------------------------------------------------------------- authentication

  /** A secret authentication_fingerprints returns at time `now`. */
  predicate Authenticates(v: Vault, k: Key, now: Time) {
    && v.enabled && k in v.secrets && k.client in v.clients && !v.clients[k.client].revoked
    && (v.secrets[k].state == ACTIVE
        || (v.secrets[k].state == OVERLAP && v.secrets[k].expires.Some? && v.secrets[k].expires.value > now))
  }

  function AuthenticatingKeys(v: Vault, now: Time): (keys: set<Key>) {
    set k | k in v.secrets && Authenticates(v, k, now)
  }

  // -------------------------------------------------------------------- invariant

  /** The client's generations are 1 to its current one; the current one is
      active with the client's fingerprint and no other is; once the client is
      revoked, all are retired. */
  predicate ClientSound(v: Vault, id: ClientId)
    requires id in v.clients
  {
    var c := v.clients[id];
    && c.generation >= 1 && Key(id, c.generation) in v.secrets
    && v.secrets[Key(id, c.generation)].fingerprint == c.fingerprint
    && (forall g | 1 <= g <= c.generation :: Key(id, g) in v.secrets)
    && (forall k | k in v.secrets && k.client == id ::
          && 1 <= k.generation <= c.generation
          && (if c.revoked then v.secrets[k].state == RETIRED
              else v.secrets[k].state == ACTIVE <==> k.generation == c.generation))
  }

  predicate FingerprintsDistinct(v: Vault) {
    forall k, j | k in v.secrets && j in v.secrets && v.secrets[k].fingerprint == v.secrets[j].fingerprint :: k == j
  }

  predicate NamesDistinct(v: Vault) {
    forall a, b | a in v.clients && b in v.clients && !v.clients[a].revoked && !v.clients[b].revoked
                  && v.clients[a].name == v.clients[b].name :: a == b
  }

  predicate Inv(v: Vault) {
    && (forall id | id in v.clients :: ClientSound(v, id))
    && (forall k | k in v.secrets :: k.client in v.clients)
    && FingerprintsDistinct(v) && NamesDistinct(v) && |Unrevoked(v)| <= MAX_ACTIVE_CLIENTS
  }

  lemma {:induction false} SmallerSet<T>(a: set<T>, b: set<T>)
    requires a <= b
    ensures |a| <= |b|
  {
    if a != {} {
      var x :| x in a;
      SmallerSet(a - {x}, b - {x});
    }
  }

  /** The rows that belong to one client. */
  ghost predicate SameRows(v: Vault, e: Vault, id: ClientId) {
    && (id in v.clients <==> id in e.clients)
    && (forall k: Key | k.client == id :: (k in v.secrets <==> k in e.secrets) && (k in v.secrets ==> v.secrets[k] == e.secrets[k]))
  }

  /** A client whose rows did not change, except perhaps its revision. */
  lemma UntouchedStaysSound(v: Vault, e: Vault, id: ClientId)
    requires id in v.clients && ClientSound(v, id) && SameRows(v, e, id)
    requires e.clients[id] == v.clients[id].(revision := e.clients[id].revision)
    ensures ClientSound(e, id)
  {
    var c := v.clients[id];
    forall g | 1 <= g <= c.generation ensures Key(id, g) in e.secrets {
      assert Key(id, g) in v.secrets;
    }
    assert Key(id, c.generation) in v.secrets;
  }

  lemma CreatedIsSound(v: Vault, call: Call)
    requires call.Create? && Attempt(v, call).Some? && forall k | k in v.secrets :: k.client in v.clients
    ensures ClientSound(Apply(v, call), call.id)
  {
    var e := Apply(v, call);
    assert forall g | 1 <= g <= 1 :: Key(call.id, g) in e.secrets;
  }

  lemma RotatedIsSound(v: Vault, call: Call)
    requires call.Rotate? && Attempt(v, call).Some? && call.id in v.clients && ClientSound(v, call.id)
    ensures ClientSound(Apply(v, call), call.id)
  {
    var e := Apply(v, call);
    var c := v.clients[call.id];
    var added := Key(call.id, c.generation + 1);
    assert e.secrets.Keys == v.secrets.Keys + {added};
    forall g | 1 <= g <= c.generation + 1 ensures Key(call.id, g) in e.secrets {
      assert g <= c.generation ==> Key(call.id, g) in v.secrets;
    }
    forall k | k in e.secrets && k.client == call.id
      ensures 1 <= k.generation <= c.generation + 1 && (e.secrets[k].state == ACTIVE <==> k.generation == c.generation + 1) {
      if k != added {
        assert k in v.secrets;
      }
    }
  }

  lemma RevokedIsSound(v: Vault, e: Vault, id: ClientId)
    requires id in v.clients && ClientSound(v, id) && id in e.clients
    requires e.clients[id] == v.clients[id].(revoked := true, revision := e.clients[id].revision)
    requires e.secrets.Keys == v.secrets.Keys && forall k | k in v.secrets && k.client == id :: e.secrets[k] == Retired(v.secrets[k])
    ensures ClientSound(e, id)
  {
    var c := v.clients[id];
    forall g | 1 <= g <= c.generation ensures Key(id, g) in e.secrets {
      assert Key(id, g) in v.secrets;
    }
  }

  lemma ClientsStaySound(v: Vault, call: Call, id: ClientId)
    requires Inv(v) && id in Apply(v, call).clients
    ensures ClientSound(Apply(v, call), id)
  {
    hide ClientSound, FingerprintsDistinct, NamesDistinct, FingerprintTaken, NameTaken, Unrevoked;
    var e := Apply(v, call);
    if call.Create? && Attempt(v, call).Some? && id == call.id {
      CreatedIsSound(v, call);
    } else if call.Rotate? && Attempt(v, call).Some? && id == call.id {
      RotatedIsSound(v, call);
    } else if (call.DisableAll? || (call.Revoke? && id == call.id)) && Attempt(v, call).Some? {
      RevokedIsSound(v, e, id);
    } else {
      UntouchedStaysSound(v, e, id);
    }
  }

  lemma KeysKeepTheirClient(v: Vault, call: Call)
    requires forall k | k in v.secrets :: k.client in v.clients
    ensures var e := Apply(v, call); forall k | k in e.secrets :: k.client in e.clients
  {
    hide Unrevoked, FingerprintTaken, NameTaken;
  }

  lemma FingerprintsStayDistinct(v: Vault, call: Call)
    requires FingerprintsDistinct(v)
    ensures FingerprintsDistinct(Apply(v, call))
  {
    hide Unrevoked, NameTaken;
    var e := Apply(v, call);
    SecretsKeepFingerprints(v, call);
    forall k, j | k in e.secrets && j in e.secrets && e.secrets[k].fingerprint == e.secrets[j].fingerprint ensures k == j {
      hide Apply;
      assert k in v.secrets || j in v.secrets ==> k in v.secrets && j in v.secrets;
    }
  }

  /** A call adds at most one secret, with a fingerprint not in use. */
  lemma SecretsKeepFingerprints(v: Vault, call: Call)
    ensures var e := Apply(v, call);
            && (forall k | k in v.secrets :: k in e.secrets && e.secrets[k].fingerprint == v.secrets[k].fingerprint)
            && (forall k | k in e.secrets && k !in v.secrets ::
                  k == AddedKey(call) && !FingerprintTaken(v, e.secrets[k].fingerprint))
  {
    hide Unrevoked, NameTaken;
  }

  function AddedKey(call: Call): (k: Key) {
    match call
    case Create(id, _, _) => Key(id, 1)
    case Rotate(id, _, _, generation, _) => Key(id, generation)
    case _ => Key("", 0)
  }

  lemma NamesStayDistinct(v: Vault, call: Call)
    requires NamesDistinct(v)
    ensures NamesDistinct(Apply(v, call))
  {
    hide Unrevoked, FingerprintTaken;
  }

  lemma CapacityHolds(v: Vault, call: Call)
    requires |Unrevoked(v)| <= MAX_ACTIVE_CLIENTS
    ensures |Unrevoked(Apply(v, call))| <= MAX_ACTIVE_CLIENTS
  {
    var e := Apply(v, call);
    if call.Create? && Attempt(v, call).Some? {
      assert Unrevoked(e) == Unrevoked(v) + {call.id};
    } else {
      SmallerSet(Unrevoked(e), Unrevoked(v));
    }
  }

  lemma ApplyKeepsInv(v: Vault, call: Call)
    requires Inv(v)
    ensures Inv(Apply(v, call))
  {
    hide Apply, ClientSound, Unrevoked, FingerprintsDistinct, NamesDistinct;
    forall id | id in Apply(v, call).clients ensures ClientSound(Apply(v, call), id) {
      ClientsStaySound(v, call, id);
    }
    KeysKeepTheirClient(v, call);
    FingerprintsStayDistinct(v, call);
    NamesStayDistinct(v, call);
    CapacityHolds(v, call);
  }

  /** Over every run: at most 32 clients are unrevoked, and while access is
      enabled each of them has exactly one active secret, the one of its current
      generation and fingerprint, with every earlier generation present. */
  lemma {:induction false} EveryRunIsSound(v: Vault, calls: seq<Call>, now: Time)
    requires Inv(v)
    ensures var e := Run(v, calls);
            && Inv(e) && |Unrevoked(e)| <= MAX_ACTIVE_CLIENTS
            && forall id | id in Unrevoked(e) ::
                 && Key(id, e.clients[id].generation) in e.secrets
                 && e.secrets[Key(id, e.clients[id].generation)].fingerprint == e.clients[id].fingerprint
                 && (forall k | k in e.secrets && k.client == id ::
                       e.secrets[k].state == ACTIVE <==> k == Key(id, e.clients[id].generation))
                 && (e.enabled ==> Authenticates(e, Key(id, e.clients[id].generation), now))
    decreases |calls|
  {
    if calls == [] {
      forall id | id in Unrevoked(v) ensures ClientSound(v, id) {}
    } else {
      ApplyKeepsInv(v, calls[0]);
      EveryRunIsSound(Apply(v, calls[0]), calls[1..], now);
    }
  }

  // ------------------------------------------------------- dead means dead forever

  /** The secret can never authenticate at or after `now`. */
  predicate Dead(v: Vault, k: Key, now: Time) {
    && k in v.secrets
    && (v.secrets[k].state == RETIRED
        || (v.secrets[k].state == OVERLAP && (v.secrets[k].expires == None || v.secrets[k].expires.value <= now)))
  }

  lemma DeadStaysDeadOnce(v: Vault, call: Call, k: Key, now: Time)
    requires Inv(v) && Dead(v, k, now)
    ensures var e := Apply(v, call); Dead(e, k, now) && e.secrets[k].fingerprint == v.secrets[k].fingerprint
  {
    hide ClientSound, Unrevoked, FingerprintTaken, NameTaken, FingerprintsDistinct, NamesDistinct;
  }

  /** A retired secret, or one whose overlap has run out, never authenticates
      again, whatever is called later, and its fingerprint is never attached to
      any other secret. In particular no fingerprint of a revoked client comes
      back, not even after access is disabled and enabled again. */
  lemma {:induction false} DeadNeverAuthenticates(v: Vault, calls: seq<Call>, k: Key, now: Time, later: Time)
    requires Inv(v) && now <= later
    requires Dead(v, k, now) || (k in v.secrets && v.clients[k.client].revoked)
    ensures var e := Run(v, calls);
            forall j | Authenticates(e, j, later) :: e.secrets[j].fingerprint != v.secrets[k].fingerprint
    decreases |calls|
  {
    hide Inv, Run;
    RevokedIsDead(v, k, now);
    DeadStaysDead(v, calls, k, now);
    var e := Run(v, calls);
    forall j | Authenticates(e, j, later) ensures e.secrets[j].fingerprint != v.secrets[k].fingerprint {
      FingerprintsIdentify(e, j, k);
    }
  }

  lemma FingerprintsIdentify(v: Vault, k: Key, j: Key)
    requires Inv(v) && k in v.secrets && j in v.secrets
    ensures v.secrets[k].fingerprint == v.secrets[j].fingerprint ==> k == j
  {
    hide ClientSound, NamesDistinct, Unrevoked;
  }

  lemma RevokedIsDead(v: Vault, k: Key, now: Time)
    requires Inv(v) && k in v.secrets
    ensures k.client in v.clients && (v.clients[k.client].revoked ==> Dead(v, k, now))
  {
    hide FingerprintsDistinct, NamesDistinct, Unrevoked;
    assert ClientSound(v, k.client);
  }

  lemma {:induction false} DeadStaysDead(v: Vault, calls: seq<Call>, k: Key, now: Time)
    requires Inv(v) && Dead(v, k, now)
    ensures var e := Run(v, calls); Inv(e) && Dead(e, k, now) && e.secrets[k].fingerprint == v.secrets[k].fingerprint
    decreases |calls|
  {
    hide Inv, Dead, Apply;
    if calls != [] {
      DeadStaysDeadOnce(v, calls[0], k, now);
      ApplyKeepsInv(v, calls[0]);
      DeadStaysDead(Apply(v, calls[0]), calls[1..], k, now);
    }
  }

  /** Disabling access revokes every client there is: afterwards only clients
      created later can authenticate, in every continuation. */
  lemma DisableIsFinal(v: Vault, calls: seq<Call>, k: Key, now: Time)
    requires Inv(v) && k in v.secrets
    ensures var e := Run(Apply(v, DisableAll(v.accessRevision)), calls);
            forall j | Authenticates(e, j, now) :: e.secrets[j].fingerprint != v.secrets[k].fingerprint
  {
    hide Inv, Run;
    var d := Apply(v, DisableAll(v.accessRevision));
    ApplyKeepsInv(v, DisableAll(v.accessRevision));
    assert d.secrets[k] == Retired(v.secrets[k]);
    DeadNeverAuthenticates(d, calls, k, now, now);
  }

  /** Nothing but the passage of time: the authenticating set only shrinks. */
  lemma TimeOnlyTakesAway(v: Vault, now: Time, later: Time)
    requires now <= later
    ensures AuthenticatingKeys(v, later) <= AuthenticatingKeys(v, now)
  {
  }

  // ------------------------------------------------------------------- revisions

  predicate Fenced(call: Call, id: ClientId, revision: nat) {
    match call
    case Rotate(i, r, _, _, _) => i == id && r == revision
    case Revoke(i, r) => i == id && r == revision
    case RecordUse(i, r) => i == id && r == revision
    case _ => false
  }

  lemma RevisionRises(v: Vault, call: Call, id: ClientId)
    requires id in v.clients
    ensures var e := Apply(v, call);
            && id in e.clients && e.clients[id].revision >= v.clients[id].revision
            && (Fenced(call, id, v.clients[id].revision) && Attempt(v, call).Some? ==>
                  e.clients[id].revision > v.clients[id].revision)
            && (v.clients[id].revoked ==> e.clients[id].revoked)
  {
  }

  lemma {:induction false} RevisionNeverFalls(v: Vault, calls: seq<Call>, id: ClientId)
    requires id in v.clients
    ensures id in Run(v, calls).clients && Run(v, calls).clients[id].revision >= v.clients[id].revision
    decreases |calls|
  {
    if calls != [] {
      RevisionRises(v, calls[0], id);
      RevisionNeverFalls(Apply(v, calls[0]), calls[1..], id);
    }
  }

  /** Of all the changes that were prepared against one revision of a client,
      at most one succeeds, whatever happens in between. */
  lemma AtMostOneChangePerRevision(v: Vault, first: Call, between: seq<Call>, second: Call, id: ClientId, revision: nat)
    requires id in v.clients && Fenced(first, id, revision) && Fenced(second, id, revision)
    requires Attempt(v, first).Some?
    ensures Attempt(Run(Apply(v, first), between), second) == None
  {
    RevisionRises(v, first, id);
    RevisionNeverFalls(Apply(v, first), between, id);
  }

  /** A rotation: the new fingerprint authenticates at once, the old one exactly
      until its overlap runs out, and no other client is affected. */
  lemma RotationSwitches(v: Vault, id: ClientId, f: Fingerprint, overlap: Option<Time>, e: Vault, now: Time)
    requires Inv(v) && id in v.clients && v.enabled
    requires Attempt(v, Rotate(id, v.clients[id].revision, f, v.clients[id].generation + 1, overlap)) == Some(e)
    ensures var former := Key(id, v.clients[id].generation);
            var latter := Key(id, v.clients[id].generation + 1);
            && Authenticates(e, latter, now) && e.secrets[latter].fingerprint == f
            && (Authenticates(e, former, now) <==> overlap.Some? && overlap.value > now)
            && (forall k: Key | k.client != id :: Authenticates(e, k, now) <==> Authenticates(v, k, now))
  {
    RotationIsRotated(v, id, f, overlap);
    CurrentSecret(v, id);
    RotatedSecrets(v, id, f, overlap);
    hide Inv, Attempt, Rotated;
  }

  /** What Rotated leaves in the two tables. */
  lemma RotatedSecrets(v: Vault, id: ClientId, f: Fingerprint, overlap: Option<Time>)
    requires id in v.clients
    requires var k := Key(id, v.clients[id].generation); k in v.secrets && v.secrets[k].state == ACTIVE
    ensures var e := Rotated(v, id, f, overlap);
            var former := Key(id, v.clients[id].generation);
            var latter := Key(id, v.clients[id].generation + 1);
            && e.enabled == v.enabled && latter in e.secrets && e.secrets[latter] == Secret(f, ACTIVE, None)
            && former in e.secrets && e.secrets[former].state == (if overlap.Some? then OVERLAP else RETIRED)
            && e.secrets[former].expires == overlap
            && id in e.clients && e.clients[id].revoked == v.clients[id].revoked
            && (forall k: Key | k.client != id ::
                  && (k in e.secrets <==> k in v.secrets) && (k in v.secrets ==> e.secrets[k] == v.secrets[k])
                  && (k.client in e.clients <==> k.client in v.clients)
                  && (k.client in v.clients ==> e.clients[k.client] == v.clients[k.client]))
  {
  }

  lemma RotationIsRotated(v: Vault, id: ClientId, f: Fingerprint, overlap: Option<Time>)
    requires id in v.clients
    ensures var done := Attempt(v, Rotate(id, v.clients[id].revision, f, v.clients[id].generation + 1, overlap));
            done.Some? ==> !v.clients[id].revoked && done.value == Rotated(v, id, f, overlap)
  {
    hide Rotated, FingerprintTaken, NameTaken, Unrevoked;
  }

  lemma CurrentSecret(v: Vault, id: ClientId)
    requires Inv(v) && id in v.clients && !v.clients[id].revoked
    ensures var k := Key(id, v.clients[id].generation); k in v.secrets && v.secrets[k].state == ACTIVE
  {
    hide FingerprintsDistinct, NamesDistinct, Unrevoked;
    assert ClientSound(v, id);
  }

  // ------------------------------------------------------- what each call does

  /** The rows and the authentication of every other client are as before. */
  ghost predicate OthersAreKept(v: Vault, e: Vault, id: ClientId) {
    && (forall other: ClientId | other != id :: Record(e, other) == Record(v, other))
    && (forall k: Key | k.client != id :: SecretAt(e, k) == SecretAt(v, k))
    && (forall k: Key, now: Time | k.client != id :: Authenticates(e, k, now) <==> Authenticates(v, k, now))
    && e.enabled == v.enabled && e.accessRevision == v.accessRevision
  }

  function Record(v: Vault, id: ClientId): (c: Option<Client>) {
    if id in v.clients then Some(v.clients[id]) else None
  }

  function SecretAt(v: Vault, k: Key): (s: Option<Secret>) {
    if k in v.secrets then Some(v.secrets[k]) else None
  }

  /** A revocation succeeds if and only if the client exists at that revision.
      Then it is revoked, all its secrets are retired and none authenticates, at
      any time; no row of another client changes. */
  lemma RevokeEffect(v: Vault, id: ClientId, revision: nat)
    ensures var done := Attempt(v, Revoke(id, revision));
            && (done.Some? <==> Record(v, id).Some? && v.clients[id].revision == revision)
            && (done.Some? ==>
                  && Record(done.value, id) == Some(v.clients[id].(revoked := true, revision := revision + 1))
                  && (forall k: Key | k.client == id ::
                        && (k in v.secrets <==> k in done.value.secrets)
                        && (k in v.secrets ==> done.value.secrets[k].state == RETIRED
                                               && done.value.secrets[k].fingerprint == v.secrets[k].fingerprint))
                  && (forall k: Key, now: Time | k.client == id :: !Authenticates(done.value, k, now))
                  && OthersAreKept(v, done.value, id))
  {
  }

  /** Whatever is called afterwards, no fingerprint the client ever had is
      returned again, at any time and under any name. */
  lemma RevokedForever(v: Vault, id: ClientId, revision: nat, calls: seq<Call>, k: Key, now: Time)
    requires Inv(v) && Attempt(v, Revoke(id, revision)).Some? && k in v.secrets && k.client == id
    ensures var e := Run(Apply(v, Revoke(id, revision)), calls);
            forall j | Authenticates(e, j, now) :: e.secrets[j].fingerprint != v.secrets[k].fingerprint
  {
    hide Run, Inv, OthersAreKept;
    RevokeEffect(v, id, revision);
    ApplyKeepsInv(v, Revoke(id, revision));
    DeadNeverAuthenticates(Apply(v, Revoke(id, revision)), calls, k, now, now);
  }

  /** When a client is created, and that its secret authenticates at once while
      access is enabled. */
  lemma CreateEffect(v: Vault, id: ClientId, name: string, f: Fingerprint)
    requires Inv(v)
    ensures var done := Attempt(v, Create(id, name, f));
            && (done.Some? <==>
                  && |Unrevoked(v)| < 32 && Record(v, id) == None
                  && (forall other | other in v.clients && !v.clients[other].revoked :: v.clients[other].name != name)
                  && (forall k | k in v.secrets :: v.secrets[k].fingerprint != f))
            && (done.Some? ==>
                  && Record(done.value, id) == Some(Client(name, f, 1, false, 1))
                  && SecretAt(done.value, Key(id, 1)) == Some(Secret(f, ACTIVE, None))
                  && (forall k: Key, now: Time | k.client == id ::
                        Authenticates(done.value, k, now) <==> v.enabled && k == Key(id, 1))
                  && OthersAreKept(v, done.value, id))
  {
    hide ClientSound, FingerprintsDistinct, NamesDistinct, Unrevoked;
    assert Record(v, id) == None ==> Key(id, 1) !in v.secrets;
  }

  /** When a client's credential is rotated. */
  lemma RotatesExactlyWhen(v: Vault, id: ClientId, revision: nat, f: Fingerprint, generation: nat, overlap: Option<Time>)
    requires Inv(v)
    ensures Attempt(v, Rotate(id, revision, f, generation, overlap)).Some? <==>
            && Record(v, id).Some? && !v.clients[id].revoked && v.clients[id].revision == revision
            && generation == v.clients[id].generation + 1
            && (forall k | k in v.secrets :: v.secrets[k].fingerprint != f)
  {
    if id in v.clients {
      NextGenerationIsFree(v, id);
    }
    hide Inv, Rotated, Unrevoked, NameTaken;
  }

  /** What a rotation leaves; whom it authenticates is RotationSwitches. */
  lemma RotateEffect(v: Vault, id: ClientId, revision: nat, f: Fingerprint, generation: nat, overlap: Option<Time>)
    requires Attempt(v, Rotate(id, revision, f, generation, overlap)).Some?
    ensures var e := Apply(v, Rotate(id, revision, f, generation, overlap));
            && id in v.clients && OthersAreKept(v, e, id)
            && Record(e, id) == Some(v.clients[id].(fingerprint := f, generation := generation, revision := revision + 1))
  {
    hide Rotated, OthersAreKept, Unrevoked, NameTaken, FingerprintTaken, Record;
    assert id in v.clients && v.clients[id].revision == revision && generation == v.clients[id].generation + 1;
    RotatedRecords(v, id, f, overlap);
  }

  lemma NextGenerationIsFree(v: Vault, id: ClientId)
    requires Inv(v) && id in v.clients
    ensures Key(id, v.clients[id].generation + 1) !in v.secrets
  {
    hide FingerprintsDistinct, NamesDistinct, Unrevoked;
    assert ClientSound(v, id);
  }

  lemma RotatedRecords(v: Vault, id: ClientId, f: Fingerprint, overlap: Option<Time>)
    requires id in v.clients
    ensures var c, e := v.clients[id], Rotated(v, id, f, overlap);
            && Record(e, id) == Some(c.(fingerprint := f, generation := c.generation + 1, revision := c.revision + 1))
            && OthersAreKept(v, e, id)
  {
  }

  /** A use raises the revision of an unrevoked client and changes nobody's
      authentication. */
  lemma UseEffect(v: Vault, id: ClientId, revision: nat)
    ensures var done := Attempt(v, RecordUse(id, revision));
            && (done.Some? <==> Record(v, id).Some? && !v.clients[id].revoked && v.clients[id].revision == revision)
            && (done.Some? ==>
                  && Record(done.value, id) == Some(v.clients[id].(revision := revision + 1))
                  && done.value.secrets == v.secrets
                  && (forall k: Key, now: Time :: Authenticates(done.value, k, now) <==> Authenticates(v, k, now))
                  && OthersAreKept(v, done.value, id))
  {
  }

  /** Disabling succeeds at the current access revision. It revokes everybody,
      retires every secret and leaves nothing that authenticates. */
  lemma DisableEffect(v: Vault, revision: nat)
    ensures var done := Attempt(v, DisableAll(revision));
            && (done.Some? <==> v.accessRevision == revision)
            && (done.Some? ==>
                  && !done.value.enabled && done.value.accessRevision == revision + 1
                  && done.value.clients.Keys == v.clients.Keys && done.value.secrets.Keys == v.secrets.Keys
                  && (forall id | id in v.clients ::
                        done.value.clients[id] ==
                        if v.clients[id].revoked then v.clients[id]
                        else v.clients[id].(revoked := true, revision := v.clients[id].revision + 1))
                  && (forall k | k in v.secrets ::
                        done.value.secrets[k].state == RETIRED && done.value.secrets[k].fingerprint == v.secrets[k].fingerprint)
                  && AuthenticatingKeys(done.value, 0) == {})
  {
  }

  /** Enabling succeeds at the current access revision and changes no row. Then
      exactly the unrevoked clients' current secrets authenticate, and their
      former ones while their overlap lasts. */
  lemma EnableEffect(v: Vault, revision: nat)
    requires Inv(v)
    ensures var done := Attempt(v, Enable(revision));
            && (done.Some? <==> v.accessRevision == revision)
            && (done.Some? ==>
                  && done.value == Vault(v.clients, v.secrets, true, revision + 1)
                  && forall k: Key, now: Time ::
                       Authenticates(done.value, k, now) <==>
                       && k in v.secrets && k.client in v.clients && !v.clients[k.client].revoked
                       && (k.generation == v.clients[k.client].generation
                           || (v.secrets[k].state == OVERLAP && v.secrets[k].expires.Some? && now < v.secrets[k].expires.value)))
  {
    forall k | k in v.secrets ensures k.client in v.clients && ClientSound(v, k.client) {}
    hide Inv, FingerprintsDistinct, NamesDistinct, Unrevoked;
  }

  // --------------------------------------------------------------- the repositories

  class ConnectionRepository {
    var clients: map<ClientId, Client>
    var secrets: map<Key, Secret>
    var enabled: bool
    var accessRevision: nat

    function Snapshot(): (v: Vault)
      reads this
    {
      Vault(clients, secrets, enabled, accessRevision)
    }

    constructor (v: Vault)
      ensures Snapshot() == v
    {
      clients, secrets, enabled, accessRevision := v.clients, v.secrets, v.enabled, v.accessRevision;
    }

    method CreateClient(id: ClientId, name: string, fingerprint: Fingerprint) returns (ok: bool)
      modifies this
      ensures ok == Attempt(old(Snapshot()), Create(id, name, fingerprint)).Some?
      ensures Snapshot() == Apply(old(Snapshot()), Create(id, name, fingerprint))
    {
      if |Unrevoked(Snapshot())| >= MAX_ACTIVE_CLIENTS || NameTaken(Snapshot(), name) {
        return false;
      }
      if id in clients || Key(id, 1) in secrets || FingerprintTaken(Snapshot(), fingerprint) {
        return false;
      }
      clients := clients[id := Client(name, fingerprint, 1, false, 1)];
      secrets := secrets[Key(id, 1) := Secret(fingerprint, ACTIVE, None)];
      return true;
    }

    method RotateClient(id: ClientId, revision: nat, fingerprint: Fingerprint, generation: nat, overlap: Option<Time>)
      returns (ok: bool)
      modifies this
      ensures ok == Attempt(old(Snapshot()), Rotate(id, revision, fingerprint, generation, overlap)).Some?
      ensures Snapshot() == Apply(old(Snapshot()), Rotate(id, revision, fingerprint, generation, overlap))
    {
      if id !in clients || clients[id].revoked || clients[id].revision != revision
         || generation != clients[id].generation + 1 {
        return false;
      }
      if Key(id, generation) in secrets || FingerprintTaken(Snapshot(), fingerprint) {
        return false;
      }
      var prior := Key(id, clients[id].generation);
      if prior in secrets && secrets[prior].state == ACTIVE {
        secrets := secrets[prior := Secret(secrets[prior].fingerprint, if overlap.Some? then OVERLAP else RETIRED, overlap)];
      }
      secrets := secrets[Key(id, generation) := Secret(fingerprint, ACTIVE, None)];
      clients := clients[id := clients[id].(fingerprint := fingerprint, generation := generation, revision := revision + 1)];
      return true;
    }

    method RevokeClient(id: ClientId, revision: nat) returns (ok: bool)
      modifies this
      ensures ok == Attempt(old(Snapshot()), Revoke(id, revision)).Some?
      ensures Snapshot() == Apply(old(Snapshot()), Revoke(id, revision))
    {
      if id !in clients || clients[id].revision != revision {
        return false;
      }
      clients := clients[id := clients[id].(revoked := true, revision := revision + 1)];
      var before := secrets;
      secrets := map k | k in before :: if k.client == id then Retired(before[k]) else before[k];
      return true;
    }

    method UseClient(id: ClientId, revision: nat) returns (ok: bool)
      modifies this`clients
      ensures ok == Attempt(old(Snapshot()), RecordUse(id, revision)).Some?
      ensures Snapshot() == Apply(old(Snapshot()), RecordUse(id, revision))
    {
      ok := id in clients && !clients[id].revoked && clients[id].revision == revision;
      if ok {
        clients := clients[id := clients[id].(revision := revision + 1)];
      }
    }

    method DisableAccess(revision: nat) returns (ok: bool)
      modifies this
      ensures ok == Attempt(old(Snapshot()), DisableAll(revision)).Some?
      ensures Snapshot() == Apply(old(Snapshot()), DisableAll(revision))
    {
      if accessRevision != revision {
        return false;
      }
      enabled, accessRevision := false, revision + 1;
      var before, held := clients, secrets;
      clients := map id | id in before ::
        if before[id].revoked then before[id] else before[id].(revoked := true, revision := before[id].revision + 1);
      secrets := map k | k in held :: Retired(held[k]);
      return true;
    }

    method EnableAccess(revision: nat) returns (ok: bool)
      modifies this`enabled, this`accessRevision
      ensures ok == Attempt(old(Snapshot()), Enable(revision)).Some?
      ensures Snapshot() == Apply(old(Snapshot()), Enable(revision))
    {
      ok := accessRevision == revision;
      if ok {
        enabled, accessRevision := true, revision + 1;
      }
    }
  }
}

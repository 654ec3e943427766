/** API keys: scopes and their text form, creation, revocation and rotation. */
module ApiKeys {
  import opened Outcomes
  import Text

  // ---------------------------------------------------------------- scopes

  const ALLOWED_SCOPES: seq<string> := ["content:read", "content:write", "audit:read", "admin"]

  /** None if a scope is not one of the allowed ones. */
  function NormalizeScopes(scopes: seq<string>): Option<seq<string>> {
    var unique := Text.Unique(scopes);
    if forall k :: 0 <= k < |unique| ==> unique[k] in ALLOWED_SCOPES then Some(unique) else None
  }

  function SerializeScopes(scopes: seq<string>): Option<string> {
    match NormalizeScopes(scopes)
    case None => None
    case Some(unique) => Some(Text.Join(unique, '|'))
  }

  function ParseScopes(text: string): set<string> {
    set piece | piece in Text.Split(text, '|') && Text.Trim(piece) != "" :: Text.Trim(piece)
  }

  lemma AllowedScopesAreClean(scope: string)
    requires scope in ALLOWED_SCOPES
    ensures Text.Trimmed(scope) && '|' !in scope && scope != ""
  {
  }

  /** Parsing serialised scopes gives back the set of the trimmed, non-blank scopes. */
  lemma ParseOfSerialize(scopes: seq<string>)
    requires SerializeScopes(scopes).Some?
    ensures forall s :: s in ParseScopes(SerializeScopes(scopes).value)
                   <==> s in Text.TrimAll(scopes) && s != ""
  {
    var unique := Text.Unique(scopes);
    var text := Text.Join(unique, '|');
    forall k | 0 <= k < |unique| ensures '|' !in unique[k] && Text.Trim(unique[k]) == unique[k] {
      AllowedScopesAreClean(unique[k]);
      Text.TrimOfTrimmed(unique[k]);
    }
    if |unique| == 0 {
      assert Text.Split(text, '|') == [""];
      assert forall s :: s in ParseScopes(text) <==> s in unique;
    } else {
      Text.SplitOfJoin(unique, '|');
      forall s ensures s in ParseScopes(text) <==> s in unique {
        if s in unique {
          assert s in Text.Split(text, '|') && Text.Trim(s) == s;
        }
      }
    }
  }

  // ---------------------------------------------------------------- the key table, as functions

  datatype ApiKey = ApiKey(
    domain: int, name: string, keyPrefix: string, keyHash: string, scopes: string,
    createdBy: Option<int>, expiresAt: Option<int>, revokedAt: Option<int>, lastUsedAt: Option<int>)

  datatype Keys = Keys(rows: map<int, ApiKey>, nextId: int)

  datatype KeyError = InvalidScopes | HashTaken

  function Prefix(plaintext: string): string {
    if |plaintext| <= 12 then plaintext else plaintext[..12]
  }

  predicate HashInUse(k: Keys, hash: string) {
    exists id :: id in k.rows && k.rows[id].keyHash == hash
  }

  predicate Live(k: Keys, id: int) {
    id in k.rows && k.rows[id].revokedAt.None?
  }

  /** Key hashes are unique; a refused insert still uses up an id. */
  function InsertKey(k: Keys, key: ApiKey): (Keys, Result<int, KeyError>) {
    if HashInUse(k, key.keyHash) then (k.(nextId := k.nextId + 1), Err(HashTaken))
    else (Keys(k.rows[k.nextId := key], k.nextId + 1), Ok(k.nextId))
  }

  datatype NewKey = NewKey(domain: int, name: string, scopes: seq<string>, createdBy: Option<int>,
      expiresAt: Option<int>)

  function Create(k: Keys, hash: string -> string, input: NewKey, plaintext: string): (Keys, Result<int, KeyError>) {
    match SerializeScopes(input.scopes)
    case None => (k, Err(InvalidScopes))
    case Some(scopes) =>
      InsertKey(k, ApiKey(input.domain, input.name, Prefix(plaintext), hash(plaintext), scopes,
                          input.createdBy, input.expiresAt, None, None))
  }

  function Revoke(k: Keys, id: int, domain: int, now: int): (Keys, bool) {
    if Live(k, id) && k.rows[id].domain == domain
    then (k.(rows := k.rows[id := k.rows[id].(revokedAt := Some(now))]), true)
    else (k, false)
  }

  function Successor(key: ApiKey, hash: string -> string, actor: Option<int>, plaintext: string): ApiKey {
    ApiKey(key.domain, key.name + " (rotated)", Prefix(plaintext), hash(plaintext), key.scopes,
           if actor.Some? then actor else key.createdBy, key.expiresAt, None, None)
  }

  /** One transaction: if the new key cannot be inserted, the revocation is undone. */
  function Rotate(
      k: Keys, hash: string -> string, id: int, domain: int, actor: Option<int>, plaintext: string, now: int)
    : (Keys, Result<Option<int>, KeyError>)
  {
    if !(Live(k, id) && k.rows[id].domain == domain) then (k, Ok(None)) else
    var revoked := k.(rows := k.rows[id := k.rows[id].(revokedAt := Some(now))]);
    match InsertKey(revoked, Successor(k.rows[id], hash, actor, plaintext))
    case (failed, Err(e)) => (k.(nextId := failed.nextId), Err(e))
    case (done, Ok(newId)) => (done, Ok(Some(newId)))
  }

  function Touch(k: Keys, id: int, now: int): Keys {
    if id in k.rows then k.(rows := k.rows[id := k.rows[id].(lastUsedAt := Some(now))]) else k
  }

  /** The look-up by hash finds unrevoked keys only. */
  predicate Resolves(k: Keys, hash: string, id: int) {
    Live(k, id) && k.rows[id].keyHash == hash
  }

  // ---------------------------------------------------------------- the store

  ghost predicate Sound(k: Keys) {
    && (forall id :: id in k.rows ==> id < k.nextId)
    && (forall a, b | a in k.rows && b in k.rows :: k.rows[a].keyHash == k.rows[b].keyHash ==> a == b)
  }

  class ApiKeyStore {
    const hash: string -> string
    var rows: map<int, ApiKey>
    var nextId: int

    function Table(): Keys
      reads this
    {
      Keys(rows, nextId)
    }

    ghost predicate Valid()
      reads this
    {
      Sound(Table())
    }

    constructor (hash: string -> string)
      ensures this.hash == hash && Valid() && Table() == Keys(map[], 1)
    {
      this.hash := hash;
      rows, nextId := map[], 1;
    }

    method Insert(key: ApiKey) returns (r: Result<int, KeyError>)
      requires Valid()
      modifies this
      ensures Valid() && (Table(), r) == InsertKey(old(Table()), key)
    {
      var id := nextId;
      nextId := nextId + 1;
      if exists other :: other in rows && rows[other].keyHash == key.keyHash {
        return Err(HashTaken);
      }
      rows := rows[id := key];
      r := Ok(id);
    }

    method CreateApiKey(input: NewKey, plaintext: string) returns (r: Result<int, KeyError>)
      requires Valid()
      modifies this
      ensures Valid() && (Table(), r) == Create(old(Table()), hash, input, plaintext)
    {
      var scopes := SerializeScopes(input.scopes);
      if scopes.None? {
        return Err(InvalidScopes);
      }
      r := Insert(ApiKey(input.domain, input.name, Prefix(plaintext), hash(plaintext), scopes.value,
                         input.createdBy, input.expiresAt, None, None));
    }

    method GetApiKeyByHash(keyHash: string) returns (key: Option<ApiKey>)
      requires Valid()
      ensures key.None? ==> forall id :: !Resolves(Table(), keyHash, id)
      ensures key.Some? ==> exists id :: Resolves(Table(), keyHash, id) && rows[id] == key.value
    {
      if exists id :: id in rows && Resolves(Table(), keyHash, id) {
        var id :| id in rows && Resolves(Table(), keyHash, id);
        return Some(rows[id]);
      }
      key := None;
    }

    method TouchApiKeyUsage(id: int, now: int)
      requires Valid()
      modifies this
      ensures Valid() && Table() == Touch(old(Table()), id, now)
    {
      if id in rows {
        rows := rows[id := rows[id].(lastUsedAt := Some(now))];
      }
    }

    method RevokeApiKey(id: int, domain: int, now: int) returns (done: bool)
      requires Valid()
      modifies this
      ensures Valid() && (Table(), done) == Revoke(old(Table()), id, domain, now)
    {
      done := id in rows && rows[id].revokedAt.None? && rows[id].domain == domain;
      if done {
        rows := rows[id := rows[id].(revokedAt := Some(now))];
      }
    }

    method RotateApiKey(id: int, domain: int, actor: Option<int>, plaintext: string, now: int)
      returns (r: Result<Option<int>, KeyError>)
      requires Valid()
      modifies this
      ensures Valid() && (Table(), r) == Rotate(old(Table()), hash, id, domain, actor, plaintext, now)
    {
      if id !in rows || rows[id].domain != domain || rows[id].revokedAt.Some? {
        return Ok(None);
      }
      var saved := rows;
      var existing := rows[id];
      rows := rows[id := existing.(revokedAt := Some(now))];
      var created := Insert(Successor(existing, hash, actor, plaintext));
      match created {
        case Ok(newId) =>
          r := Ok(Some(newId));
        case Err(e) =>
          rows := saved;
          r := Err(e);
      }
    }
  }

  // ---------------------------------------------------------------- the life of a key

  datatype Command =
    | CmdCreate(input: NewKey, plaintext: string)
    | CmdRevoke(id: int, domain: int, now: int)
    | CmdRotate(id: int, domain: int, actor: Option<int>, plaintext: string, now: int)
    | CmdTouch(id: int, now: int)

  /** The table, and for each key the first key of its rotation chain. */
  datatype History = History(keys: Keys, origin: map<int, int>)

  function Step(h: History, hash: string -> string, c: Command): History {
    match c
    case CmdCreate(input, plaintext) =>
      (match Create(h.keys, hash, input, plaintext)
       case (next, Ok(id)) => History(next, h.origin[id := id])
       case (next, Err(_)) => History(next, h.origin))
    case CmdRevoke(id, domain, now) => History(Revoke(h.keys, id, domain, now).0, h.origin)
    case CmdRotate(id, domain, actor, plaintext, now) =>
      (match Rotate(h.keys, hash, id, domain, actor, plaintext, now)
       case (next, Ok(Some(newId))) => History(next, h.origin[newId := if id in h.origin then h.origin[id] else id])
       case (next, _) => History(next, h.origin))
    case CmdTouch(id, now) => History(Touch(h.keys, id, now), h.origin)
  }

  function Run(hash: string -> string, commands: seq<Command>): History {
    if |commands| == 0 then History(Keys(map[], 1), map[])
    else Step(Run(hash, commands[..|commands| - 1]), hash, commands[|commands| - 1])
  }

  predicate SameChain(h: History, a: int, b: int) {
    a in h.origin && b in h.origin && h.origin[a] == h.origin[b]
  }

  /** Of each chain only the newest key can be unrevoked. */
  ghost predicate OnlyNewestLive(h: History) {
    && h.origin.Keys == h.keys.rows.Keys
    && (forall id :: id in h.origin ==> h.origin[id] < h.keys.nextId)
    && (forall a, b | a in h.origin && b in h.origin :: h.origin[a] == h.origin[b] && a < b ==> !Live(h.keys, a))
  }

  /** A key row is never removed, its hash and domain never change, and a revocation stands. */
  ghost predicate Keeps(before: Keys, after: Keys) {
    forall id :: id in before.rows ==>
      && id in after.rows
      && after.rows[id].keyHash == before.rows[id].keyHash && after.rows[id].domain == before.rows[id].domain
      && after.rows[id].scopes == before.rows[id].scopes && after.rows[id].expiresAt == before.rows[id].expiresAt
      && (before.rows[id].revokedAt.Some? ==> after.rows[id].revokedAt == before.rows[id].revokedAt)
  }

  /** The first key of a rotation chain, for a key new to the table: itself or that of the key it replaces. */
  lemma InsertKeepsChains(h: History, key: ApiKey, origin: int)
    requires Sound(h.keys) && OnlyNewestLive(h) && key.revokedAt.None? && origin <= h.keys.nextId
    requires forall id :: id in h.origin && h.origin[id] == origin ==> !Live(h.keys, id)
    ensures var (next, reply) := InsertKey(h.keys, key);
            && Sound(next) && Keeps(h.keys, next)
            && OnlyNewestLive(History(next, if reply.Ok? then h.origin[reply.value := origin] else h.origin))
  {
  }

  ghost predicate Kept(before: History, after: History) {
    Sound(after.keys) && OnlyNewestLive(after) && Keeps(before.keys, after.keys)
  }

  lemma RevocationKeepsChains(h: History, id: int, now: int)
    requires Sound(h.keys) && OnlyNewestLive(h) && Live(h.keys, id)
    ensures var next := h.keys.(rows := h.keys.rows[id := h.keys.rows[id].(revokedAt := Some(now))]);
            Sound(next) && OnlyNewestLive(History(next, h.origin)) && Keeps(h.keys, next)
  {
    assert id in h.keys.rows.Keys;
  }

  lemma CreateKeeps(h: History, hash: string -> string, input: NewKey, plaintext: string)
    requires Sound(h.keys) && OnlyNewestLive(h)
    ensures Kept(h, Step(h, hash, CmdCreate(input, plaintext)))
  {
    var scopes := SerializeScopes(input.scopes);
    if scopes.Some? {
      InsertKeepsChains(h, ApiKey(input.domain, input.name, Prefix(plaintext), hash(plaintext), scopes.value,
                                  input.createdBy, input.expiresAt, None, None), h.keys.nextId);
    }
  }

  lemma RevokeKeeps(h: History, hash: string -> string, id: int, domain: int, now: int)
    requires Sound(h.keys) && OnlyNewestLive(h)
    ensures Kept(h, Step(h, hash, CmdRevoke(id, domain, now)))
  {
    if Live(h.keys, id) && h.keys.rows[id].domain == domain {
      RevocationKeepsChains(h, id, now);
    }
  }

  lemma RotateKeeps(
      h: History, hash: string -> string, id: int, domain: int, actor: Option<int>, plaintext: string, now: int)
    requires Sound(h.keys) && OnlyNewestLive(h)
    ensures Kept(h, Step(h, hash, CmdRotate(id, domain, actor, plaintext, now)))
  {
    assert id in h.origin.Keys <==> id in h.keys.rows.Keys;
    if Live(h.keys, id) && h.keys.rows[id].domain == domain {
      var successor := Successor(h.keys.rows[id], hash, actor, plaintext);
      ReplacementKeeps(h, id, now, successor);
    }
  }

  /** Revoking a key and inserting its successor in one transaction. */
  lemma ReplacementKeeps(h: History, id: int, now: int, successor: ApiKey)
    requires Sound(h.keys) && OnlyNewestLive(h) && Live(h.keys, id) && id in h.origin && successor.revokedAt.None?
    ensures var revoked := h.keys.(rows := h.keys.rows[id := h.keys.rows[id].(revokedAt := Some(now))]);
            var (done, reply) := InsertKey(revoked, successor);
            if reply.Ok? then Kept(h, History(done, h.origin[reply.value := h.origin[id]]))
            else Kept(h, History(h.keys.(nextId := done.nextId), h.origin))
  {
    var revoked := h.keys.(rows := h.keys.rows[id := h.keys.rows[id].(revokedAt := Some(now))]);
    RevocationKeepsChains(h, id, now);
    if InsertKey(revoked, successor).1.Ok? {
      ChainIsRevoked(h, id, now);
      InsertKeepsChains(History(revoked, h.origin), successor, h.origin[id]);
    } else {
      SequenceGapKeeps(h, InsertKey(revoked, successor).0.nextId);
    }
  }

  /** Once its live key is revoked, a chain has none. */
  lemma ChainIsRevoked(h: History, id: int, now: int)
    requires OnlyNewestLive(h) && Live(h.keys, id) && id in h.origin
    ensures var revoked := h.keys.(rows := h.keys.rows[id := h.keys.rows[id].(revokedAt := Some(now))]);
            forall other :: other in h.origin && h.origin[other] == h.origin[id] ==> !Live(revoked, other)
  {
  }

  lemma StepKeeps(h: History, hash: string -> string, c: Command)
    requires Sound(h.keys) && OnlyNewestLive(h)
    ensures Kept(h, Step(h, hash, c))
  {
    match c
    case CmdCreate(input, plaintext) => CreateKeeps(h, hash, input, plaintext);
    case CmdRevoke(id, domain, now) => RevokeKeeps(h, hash, id, domain, now);
    case CmdRotate(id, domain, actor, plaintext, now) => RotateKeeps(h, hash, id, domain, actor, plaintext, now);
    case CmdTouch(id, now) => TouchKeepsChains(h, id, now);
  }

  lemma SequenceGapKeeps(h: History, next: int)
    requires Sound(h.keys) && OnlyNewestLive(h) && h.keys.nextId <= next
    ensures var gap := h.keys.(nextId := next);
            Sound(gap) && OnlyNewestLive(History(gap, h.origin)) && Keeps(h.keys, gap)
  {
  }

  lemma TouchKeepsChains(h: History, id: int, now: int)
    requires Sound(h.keys) && OnlyNewestLive(h)
    ensures var next := Touch(h.keys, id, now);
            Sound(next) && OnlyNewestLive(History(next, h.origin)) && Keeps(h.keys, next)
  {
    assert forall other :: Live(h.keys, other) <==> Live(Touch(h.keys, id, now), other);
    assert id in h.keys.rows ==> Touch(h.keys, id, now).rows.Keys == h.keys.rows.Keys;
  }

  lemma {:induction false} RunKeeps(hash: string -> string, commands: seq<Command>, n: nat)
    requires n <= |commands|
    ensures Sound(Run(hash, commands).keys) && OnlyNewestLive(Run(hash, commands))
    ensures Keeps(Run(hash, commands[..n]).keys, Run(hash, commands).keys)
  {
    if |commands| > 0 {
      var init := commands[..|commands| - 1];
      if n == |commands| {
        RunKeeps(hash, init, |init|);
        StepKeeps(Run(hash, init), hash, commands[|commands| - 1]);
        assert commands[..n] == commands;
      } else {
        RunKeeps(hash, init, n);
        StepKeeps(Run(hash, init), hash, commands[|commands| - 1]);
        assert init[..n] == commands[..n];
      }
    } else {
      assert commands[..n] == commands;
    }
  }

  /**
   Over every run: a revocation once made stands for good, and of each rotation chain only the
   newest key can be unrevoked, so that no older key's hash resolves to any key.
   */
  lemma KeyLifecycle(hash: string -> string, commands: seq<Command>, n: nat, a: int, b: int)
    requires n <= |commands|
    ensures var earlier, now := Run(hash, commands[..n]), Run(hash, commands);
            && (a in earlier.keys.rows && !Live(earlier.keys, a) ==>
                  a in now.keys.rows && now.keys.rows[a].revokedAt == earlier.keys.rows[a].revokedAt
                  && !Resolves(now.keys, earlier.keys.rows[a].keyHash, b))
            && (SameChain(now, a, b) && a < b ==>
                  a in now.keys.rows && !Live(now.keys, a)
                      && forall c :: !Resolves(now.keys, now.keys.rows[a].keyHash, c))
            && (SameChain(now, a, b) && Live(now.keys, a) && Live(now.keys, b) ==> a == b)
  {
    RunKeeps(hash, commands, n);
    OldKeysResolveNowhere(Run(hash, commands), a, b);
  }

  lemma OldKeysResolveNowhere(h: History, a: int, b: int)
    requires Sound(h.keys) && OnlyNewestLive(h)
    ensures SameChain(h, a, b) && a < b ==>
      a in h.keys.rows && !Live(h.keys, a) && forall c :: !Resolves(h.keys, h.keys.rows[a].keyHash, c)
    ensures SameChain(h, a, b) && Live(h.keys, a) && Live(h.keys, b) ==> a == b
  {
    assert a in h.origin.Keys <==> a in h.keys.rows.Keys;
  }

  function LiveIds(k: Keys): set<int> {
    set id | id in k.rows && Live(k, id)
  }

  /**
   A rotation replaces one live key by another of the same domain, scopes and expiry: as many
   keys are live as before, the old hash no longer resolves, and the new plaintext's does.
   */
  lemma RotationReplacesKey(
      k: Keys, hash: string -> string, id: int, domain: int, actor: Option<int>, plaintext: string, now: int)
    requires Sound(k)
    ensures var (next, reply) := Rotate(k, hash, id, domain, actor, plaintext, now);
            && (reply.Ok? && reply.value.Some? ==>
                  var newId := reply.value.value;
                  && Live(k, id) && k.rows[id].domain == domain
                  && LiveIds(next) == LiveIds(k) - {id} + {newId} && |LiveIds(next)| == |LiveIds(k)|
                  && newId !in k.rows && next.rows[newId].domain == k.rows[id].domain
                  && next.rows[newId].scopes == k.rows[id].scopes && next.rows[newId].expiresAt == k.rows[id].expiresAt
                  && (forall other :: Resolves(next, hash(plaintext), other) <==> other == newId)
                  && (forall other :: !Resolves(next, k.rows[id].keyHash, other)))
            && (reply.Err? || reply.value.None? ==> next.rows == k.rows)
  {
    var (next, reply) := Rotate(k, hash, id, domain, actor, plaintext, now);
    if reply.Ok? && reply.value.Some? {
      var newId := reply.value.value;
      assert id in LiveIds(k) && newId !in LiveIds(k);
      assert LiveIds(next) == LiveIds(k) - {id} + {newId};
      var revoked := k.(rows := k.rows[id := k.rows[id].(revokedAt := Some(now))]);
      assert !HashInUse(revoked, hash(plaintext));
      forall other | other in k.rows ensures next.rows[other].keyHash != hash(plaintext) {
        assert other in revoked.rows && revoked.rows[other].keyHash == k.rows[other].keyHash;
      }
      assert k.rows[id].keyHash != hash(plaintext);
    }
  }

  // ---------------------------------------------------------------- what is stored

  /** The first twelve characters, or all there are. */
  ghost predicate Opens(prefix: string, plaintext: string) {
    prefix <= plaintext && (|prefix| == 12 || (|prefix| < 12 && prefix == plaintext))
  }

  /** The scopes given, without blanks and in one text. */
  ghost predicate Grants(text: string, scopes: seq<string>) {
    forall s :: s in ParseScopes(text) <==> s != "" && exists k :: 0 <= k < |scopes| && Text.Trim(scopes[k]) == s
  }

  /** Some scope is neither blank nor one of the four there are. */
  ghost predicate NamesUnknown(scopes: seq<string>) {
    exists k :: 0 <= k < |scopes|
                && Text.Trim(scopes[k]) !in {"", "content:read", "content:write", "audit:read", "admin"}
  }

  ghost predicate OnlyAdded(before: Keys, after: Keys, id: int) {
    && id !in before.rows && id in after.rows && after.nextId == before.nextId + 1 && id == before.nextId
    && after.rows.Keys == before.rows.Keys + {id}
    && forall other :: other in before.rows ==> after.rows[other] == before.rows[other]
  }

  lemma UnknownScopes(scopes: seq<string>)
    ensures SerializeScopes(scopes) == None <==> NamesUnknown(scopes)
    ensures SerializeScopes(scopes).Some? ==> Grants(SerializeScopes(scopes).value, scopes)
  {
    var all, unique := Text.TrimAll(scopes), Text.Unique(scopes);
    assert forall k :: 0 <= k < |scopes| ==> all[k] == Text.Trim(scopes[k]);
    if NamesUnknown(scopes) {
      var k :| 0 <= k < |scopes|
          && Text.Trim(scopes[k]) !in {"", "content:read", "content:write", "audit:read", "admin"};
      assert all[k] in all && all[k] in unique;
      var j :| 0 <= j < |unique| && unique[j] == all[k];
    } else {
      forall j | 0 <= j < |unique| ensures unique[j] in ALLOWED_SCOPES {
        assert unique[j] in all;
        var k :| 0 <= k < |all| && all[k] == unique[j];
        assert Text.Trim(scopes[k]) == unique[j];
      }
    }
    if SerializeScopes(scopes).Some? {
      ParseOfSerialize(scopes);
      forall s ensures s in all <==> exists k :: 0 <= k < |scopes| && Text.Trim(scopes[k]) == s {
        if s in all {
          var k :| 0 <= k < |all| && all[k] == s;
          assert Text.Trim(scopes[k]) == s;
        }
      }
    }
  }

  /** A new key is stored as asked for, unrevoked and unused, unless a scope is unknown or its hash is taken. */
  lemma CreateOutcome(k: Keys, hash: string -> string, input: NewKey, plaintext: string)
    requires Sound(k)
    ensures var (next, reply) := Create(k, hash, input, plaintext);
            var taken := exists id :: id in k.rows && k.rows[id].keyHash == hash(plaintext);
            if NamesUnknown(input.scopes) then next == k && reply == Err(InvalidScopes)
            else if taken then next.rows == k.rows && reply == Err(HashTaken)
            else
              && reply == Ok(k.nextId) && OnlyAdded(k, next, k.nextId)
              && var made := next.rows[k.nextId];
                 && made.domain == input.domain && made.name == input.name
                 && Opens(made.keyPrefix, plaintext) && made.keyHash == hash(plaintext)
                 && Grants(made.scopes, input.scopes)
                 && made.createdBy == input.createdBy && made.expiresAt == input.expiresAt
                 && made.revokedAt == None && made.lastUsedAt == None
  {
    UnknownScopes(input.scopes);
  }

  /** At most the row of this id has changed, and in it only when it was revoked or last used. */
  ghost predicate OnlyStamped(before: Keys, after: Keys, id: int, revokedAt: Option<int>, usedAt: Option<int>) {
    && id in before.rows && after.rows.Keys == before.rows.Keys && after.nextId == before.nextId
    && (forall other :: other in before.rows && other != id ==> after.rows[other] == before.rows[other])
    && var was, is_ := before.rows[id], after.rows[id];
       && is_.domain == was.domain && is_.name == was.name && is_.keyPrefix == was.keyPrefix
       && is_.keyHash == was.keyHash && is_.scopes == was.scopes && is_.createdBy == was.createdBy
       && is_.expiresAt == was.expiresAt && is_.revokedAt == revokedAt && is_.lastUsedAt == usedAt
  }

  /** Exactly the domain's unrevoked key is revoked, at this time; use is noted on any key there is. */
  lemma StampOutcome(k: Keys, id: int, domain: int, now: int)
    ensures var (next, done) := Revoke(k, id, domain, now);
            && (done <==> id in k.rows && k.rows[id].domain == domain && k.rows[id].revokedAt == None)
            && (done ==> OnlyStamped(k, next, id, Some(now), k.rows[id].lastUsedAt))
            && (!done ==> next == k)
    ensures id in k.rows ==> OnlyStamped(k, Touch(k, id, now), id, k.rows[id].revokedAt, Some(now))
    ensures id !in k.rows ==> Touch(k, id, now) == k
  {
  }

  /** What a rotation leaves of the old key and makes of the new one. */
  lemma RotateOutcome(
      k: Keys, hash: string -> string, id: int, domain: int, actor: Option<int>, plaintext: string, now: int)
    requires Sound(k)
    ensures var (next, reply) := Rotate(k, hash, id, domain, actor, plaintext, now);
            var taken := exists other :: other in k.rows && k.rows[other].keyHash == hash(plaintext);
            if id !in k.rows || k.rows[id].domain != domain || k.rows[id].revokedAt != None
            then next == k && reply == Ok(None)
            else if taken then next.rows == k.rows && reply == Err(HashTaken)
            else
              && reply == Ok(Some(k.nextId)) && k.nextId !in k.rows && k.nextId in next.rows
              && OnlyStamped(k, Keys(next.rows - {k.nextId}, k.nextId), id, Some(now), k.rows[id].lastUsedAt)
              && var was, made := k.rows[id], next.rows[k.nextId];
                 && made.domain == was.domain && made.name == was.name + " (rotated)"
                 && Opens(made.keyPrefix, plaintext) && made.keyHash == hash(plaintext)
                 && made.scopes == was.scopes && made.expiresAt == was.expiresAt
                 && made.createdBy == (if actor == None then was.createdBy else actor)
                 && made.revokedAt == None && made.lastUsedAt == None
  {
    if id in k.rows && k.rows[id].domain == domain && k.rows[id].revokedAt == None {
      var revoked := k.(rows := k.rows[id := k.rows[id].(revokedAt := Some(now))]);
      assert forall other :: other in k.rows ==>
        other in revoked.rows && revoked.rows[other].keyHash == k.rows[other].keyHash;
    }
  }

  ghost predicate SameGrant(k: Keys, a: int, b: int) {
    && a in k.rows && b in k.rows && k.rows[a].domain == k.rows[b].domain
    && k.rows[a].scopes == k.rows[b].scopes && k.rows[a].expiresAt == k.rows[b].expiresAt
  }

  /** Every key has the domain, scopes and expiry of the first key of its chain. */
  ghost predicate GrantsInherited(h: History) {
    forall id :: id in h.origin ==> SameGrant(h.keys, id, h.origin[id])
  }

  lemma KeptGrants(h: History, next: Keys)
    requires GrantsInherited(h) && Keeps(h.keys, next)
    ensures GrantsInherited(History(next, h.origin))
  {
  }

  lemma AddedGrant(h: History, id: int, origin: int)
    requires GrantsInherited(h) && SameGrant(h.keys, id, origin)
    ensures GrantsInherited(History(h.keys, h.origin[id := origin]))
  {
  }

  lemma StepInheritsGrants(h: History, hash: string -> string, c: Command)
    requires Sound(h.keys) && OnlyNewestLive(h) && GrantsInherited(h)
    ensures GrantsInherited(Step(h, hash, c))
  {
    StepKeeps(h, hash, c);
    var next := Step(h, hash, c).keys;
    KeptGrants(h, next);
    match c
    case CmdCreate(input, plaintext) =>
      var reply := Create(h.keys, hash, input, plaintext).1;
      if reply.Ok? {
        AddedGrant(History(next, h.origin), reply.value, reply.value);
      }
    case CmdRotate(id, domain, actor, plaintext, now) =>
      var reply := Rotate(h.keys, hash, id, domain, actor, plaintext, now).1;
      if reply.Ok? && reply.value.Some? {
        RotationReplacesKey(h.keys, hash, id, domain, actor, plaintext, now);
        assert id in h.keys.rows.Keys && id in h.origin;
        AddedGrant(History(next, h.origin), reply.value.value, h.origin[id]);
      }
    case _ =>
  }

  /** However often a key is rotated, the key in force grants what the first one was created with. */
  lemma {:induction false} RotationKeepsGrant(hash: string -> string, commands: seq<Command>)
    ensures GrantsInherited(Run(hash, commands))
  {
    if |commands| > 0 {
      var init := commands[..|commands| - 1];
      RotationKeepsGrant(hash, init);
      RunKeeps(hash, init, |init|);
      StepInheritsGrants(Run(hash, init), hash, commands[|commands| - 1]);
    }
  }
}

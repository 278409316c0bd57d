/** Agent passports: issuing, revoking, the kill switch, and verification through a cache. */
module Passports {
  import opened Prelude
  import AgentRegistry

  type Bytes = seq<bv8>

  /** A stored row; wall-clock times are in microseconds. */
  datatype Passport = Passport(
    passportId: string, agentName: string, agentClass: string, ownerEmail: string,
    scopeClusters: seq<string>, scopeIntents: seq<string>, scopeSkills: seq<string>,
    issuedAt: int, expiresAt: int, notBefore: Option<int>,
    killSwitch: bool, revokedAt: Option<int>, revocationReason: Option<string>,
    issuerSignature: string, signingScheme: string, createdAt: int)

  datatype Credential = Credential(passportId: string, presentedCount: nat, lastPresentedAt: Option<int>)

  const SYSTEM_PASSPORT_ID := "demo_passport"
  const SYSTEM_PASSPORT_TOKEN := "demo_passport"
  const VALID_AGENT_CLASSES := {"internal", "external_mcp", "skill_runner"}
  const VERIFY_CACHE_TTL := 60_000_000
  const HOUR := 3_600_000_000

  // ---------------------------------------------------------------------------
  // Signing, idealised
  // ---------------------------------------------------------------------------

  /** What a signature covers: the row, whatever its own signature column says. */
  function Canonical(row: Passport): Passport { row.(issuerSignature := "") }

  datatype Crypto = Crypto(
    sign: Passport -> Bytes, verify: (Passport, Bytes) -> bool,
    encode: Bytes -> string, decode: string -> Option<Bytes>,
    tokenHash: string -> string)

  ghost predicate SignsAndVerifies(c: Crypto) {
    && (forall p: Passport :: c.verify(p, c.sign(p)))
    && (forall b: Bytes :: c.decode(c.encode(b)) == Some(b))
  }

  function Signed(c: Crypto, row: Passport): Passport {
    row.(issuerSignature := c.encode(c.sign(Canonical(row))))
  }

  predicate SignatureOk(c: Crypto, row: Passport) {
    match c.decode(row.issuerSignature)
    case None => false
    case Some(signature) => c.verify(Canonical(row), signature)
  }

  lemma SignedIsOk(c: Crypto, row: Passport)
    requires SignsAndVerifies(c)
    ensures SignatureOk(c, Signed(c, row))
  {
    assert Canonical(Signed(c, row)) == Canonical(row);
  }

  // ---------------------------------------------------------------------------
  // Scopes
  // ---------------------------------------------------------------------------

  function Cleaned(values: seq<string>): seq<string> {
    if values == [] then []
    else (if AgentRegistry.Strip(values[0]) == "" then [] else [AgentRegistry.Strip(values[0])]) + Cleaned(values[1..])
  }

  function Distinct(values: seq<string>): seq<string> {
    if values == [] then []
    else
      var rest := Distinct(values[1..]);
      if values[0] in rest then rest else [values[0]] + rest
  }

  function NormalizeScope(values: seq<string>): seq<string> {
    var cleaned := Cleaned(values);
    if "*" in cleaned then ["*"] else Sort(StrLe, Distinct(cleaned))
  }

  /** A scope lists what it allows, or allows everything. */
  predicate Allows(scope: seq<string>, item: string) { "*" in scope || item in scope }

  predicate CheckScope(p: Passport, intent: string, clusterId: Option<string>, skillId: Option<string>) {
    && ("*" in p.scopeClusters || (clusterId.Some? && clusterId.value in p.scopeClusters))
    && Allows(p.scopeIntents, intent)
    && ("*" in p.scopeSkills || skillId.None? || skillId.value in p.scopeSkills)
  }

  lemma {:induction false} DistinctKeepsMembers(values: seq<string>)
    ensures forall x :: x in Distinct(values) <==> x in values
  {
    if values == [] {
    } else {
      DistinctKeepsMembers(values[1..]);
      assert values == [values[0]] + values[1..];
    }
  }

  lemma StrLePreorder()
    ensures TotalPreorder(StrLe)
  {
    forall x: string, y: string ensures StrLe(x, y) || StrLe(y, x) {
      StrLeTotal(x, y);
    }
    forall x: string, y: string, z: string | StrLe(x, y) && StrLe(y, z) ensures StrLe(x, z) {
      StrLeTransitive(x, y, z);
    }
  }

  /** Normalising a scope changes its listing, not what it allows. */
  lemma NormalizedScopeAllowsTheSame(values: seq<string>, item: string)
    ensures Allows(NormalizeScope(values), item) <==> Allows(Cleaned(values), item)
  {
    StrLePreorder();
    var cleaned := Cleaned(values);
    DistinctKeepsMembers(cleaned);
    SortMembers(StrLe, Distinct(cleaned));
  }

  function WithScopes(p: Passport, clusters: seq<string>, intents: seq<string>, skills: seq<string>): Passport {
    p.(scopeClusters := clusters, scopeIntents := intents, scopeSkills := skills)
  }

  /** ... so the scope check answers as it would on the scopes that were asked for. */
  lemma NormalizedScopesCheckTheSame(p: Passport, clusters: seq<string>, intents: seq<string>, skills: seq<string>,
                                     intent: string, clusterId: Option<string>, skillId: Option<string>)
    ensures CheckScope(WithScopes(p, NormalizeScope(clusters), NormalizeScope(intents), NormalizeScope(skills)),
                       intent, clusterId, skillId)
       <==> CheckScope(WithScopes(p, Cleaned(clusters), Cleaned(intents), Cleaned(skills)), intent, clusterId, skillId)
  {
    hide NormalizeScope, Cleaned;
    NormalizedScopeAllowsTheSame(clusters, if clusterId.Some? then clusterId.value else "*");
    NormalizedScopeAllowsTheSame(clusters, "*");
    NormalizedScopeAllowsTheSame(intents, intent);
    NormalizedScopeAllowsTheSame(skills, if skillId.Some? then skillId.value else "*");
    NormalizedScopeAllowsTheSame(skills, "*");
  }

  // ---------------------------------------------------------------------------
  // Validation and the uncached lookup
  // ---------------------------------------------------------------------------

  datatype Error =
    | InvalidOrMissing | CredentialNotFound | PassportNotFound
    | UnsupportedScheme | BadSignature | NotYetValid | Expired | Revoked | KillSwitched

  datatype Result = Accepted(row: Passport) | Refused(error: Error)

  function ValidatePassport(c: Crypto, row: Passport, now: int): Result {
    if row.signingScheme != "ed25519" then Refused(UnsupportedScheme)
    else if !SignatureOk(c, row) then Refused(BadSignature)
    else if row.notBefore.Some? && now < row.notBefore.value then Refused(NotYetValid)
    else if now >= row.expiresAt then Refused(Expired)
    else if row.revokedAt.Some? then Refused(Revoked)
    else if row.killSwitch then Refused(KillSwitched)
    else Accepted(row)
  }

  datatype Db = Db(passports: map<string, Passport>, credentials: map<string, Credential>)

  predicate Barred(token: string, production: bool) { token == SYSTEM_PASSPORT_TOKEN && production }

  /** Verification with no cache: credential, row, checks. */
  function Lookup(c: Crypto, db: Db, token: string, production: bool, now: int): Result {
    var h := c.tokenHash(token);
    if Barred(token, production) then Refused(InvalidOrMissing)
    else if h !in db.credentials then Refused(CredentialNotFound)
    else if db.credentials[h].passportId !in db.passports then Refused(PassportNotFound)
    else ValidatePassport(c, db.passports[db.credentials[h].passportId], now)
  }

  // ---------------------------------------------------------------------------
  // The operations, each call atomic
  // ---------------------------------------------------------------------------

  datatype Entry = Entry(expiry: int, row: Passport)

  datatype Desk = Desk(db: Db, cache: map<string, Entry>)

  const EMPTY := Desk(Db(map[], map[]), map[])

  function Presented(cr: Credential, now: int): Credential {
    cr.(presentedCount := cr.presentedCount + 1, lastPresentedAt := Some(now))
  }

  /** Verification through the cache: a live entry is validated instead of the row. */
  function Verify(c: Crypto, d: Desk, token: string, production: bool, now: int, monotonic: int): (Desk, Result) {
    var h := c.tokenHash(token);
    if Barred(token, production) then (d, Refused(InvalidOrMissing))
    else if h in d.cache && d.cache[h].expiry > monotonic then (d, ValidatePassport(c, d.cache[h].row, now))
    else
      var r := Lookup(c, d.db, token, production, now);
      if r.Refused? then (d, r)
      else
        (Desk(d.db.(credentials := d.db.credentials[h := Presented(d.db.credentials[h], now)]),
              d.cache[h := Entry(monotonic + VERIFY_CACHE_TTL, r.row)]), r)
  }

  datatype Request = Request(
    passportId: string, token: string, agentName: string, agentClass: string, ownerEmail: string,
    scopeClusters: seq<string>, scopeIntents: seq<string>, scopeSkills: seq<string>, ttlHours: int)

  function NewPassport(c: Crypto, r: Request, now: int): Passport {
    Signed(c, Passport(
      r.passportId, AgentRegistry.Strip(r.agentName), r.agentClass, AgentRegistry.Strip(r.ownerEmail),
      NormalizeScope(r.scopeClusters), NormalizeScope(r.scopeIntents), NormalizeScope(r.scopeSkills),
      now, now + r.ttlHours * HOUR, None, false, None, None, "", "ed25519", now))
  }

  /** Bad requests and taken keys are refused before anything changes. */
  predicate Issuable(c: Crypto, d: Desk, r: Request) {
    && r.agentClass in VALID_AGENT_CLASSES && r.ttlHours > 0
    && r.passportId !in d.db.passports && c.tokenHash(r.token) !in d.db.credentials
  }

  function Issue(c: Crypto, d: Desk, r: Request, now: int): Desk {
    if !Issuable(c, d, r) then d
    else
      Desk(Db(d.db.passports[r.passportId := NewPassport(c, r, now)],
              d.db.credentials[c.tokenHash(r.token) := Credential(r.passportId, 0, None)]),
           map[])
  }

  function RevokedRow(c: Crypto, row: Passport, reason: Option<string>, now: int): Passport {
    var why := if reason.Some? && reason.value != "" then reason.value else "revoked";
    Signed(c, row.(revokedAt := Some(now), revocationReason := Some(why)))
  }

  function ToggledRow(c: Crypto, row: Passport, enabled: bool): Passport {
    Signed(c, row.(killSwitch := enabled))
  }

  function Revoke(c: Crypto, d: Desk, id: string, reason: Option<string>, now: int): Desk {
    if id !in d.db.passports then d
    else Desk(d.db.(passports := d.db.passports[id := RevokedRow(c, d.db.passports[id], reason, now)]), map[])
  }

  function ToggleKillSwitch(c: Crypto, d: Desk, id: string, enabled: bool): Desk {
    if id !in d.db.passports then d
    else Desk(d.db.(passports := d.db.passports[id := ToggledRow(c, d.db.passports[id], enabled)]), map[])
  }

  const SYSTEM_REQUEST := Request(
    SYSTEM_PASSPORT_ID, SYSTEM_PASSPORT_TOKEN, "demo_system_agent", "internal", "system@axiom.local",
    ["*"], ["*"], ["*"], 24 * 365)

  function EnsureSystemPassport(c: Crypto, d: Desk, now: int): Desk {
    if SYSTEM_PASSPORT_ID in d.db.passports then d else Issue(c, d, SYSTEM_REQUEST, now)
  }

  predicate Active(row: Passport, now: int) {
    && row.revokedAt.None? && !row.killSwitch && row.expiresAt > now
    && (row.notBefore.None? || row.notBefore.value <= now)
  }

  function ListPassports(db: Db, activeOnly: bool, now: int): set<Passport> {
    set id | id in db.passports && (activeOnly ==> Active(db.passports[id], now)) :: db.passports[id]
  }

  datatype Op =
    | OpIssue(r: Request)
    | OpSystem
    | OpRevoke(id: string, reason: Option<string>)
    | OpToggle(id: string, enabled: bool)
    | OpVerify(token: string, production: bool, monotonic: int)

  function Do(c: Crypto, d: Desk, op: Op, now: int): Desk {
    match op
    case OpIssue(r) => Issue(c, d, r, now)
    case OpSystem => EnsureSystemPassport(c, d, now)
    case OpRevoke(id, reason) => Revoke(c, d, id, reason, now)
    case OpToggle(id, enabled) => ToggleKillSwitch(c, d, id, enabled)
    case OpVerify(token, production, monotonic) => Verify(c, d, token, production, now, monotonic).0
  }

  /** A run of calls, each at any wall-clock and any monotonic time. */
  function Run(c: Crypto, d: Desk, ops: seq<(Op, int)>): Desk {
    if ops == [] then d else Do(c, Run(c, d, ops[..|ops| - 1]), ops[|ops| - 1].0, ops[|ops| - 1].1)
  }

  // ---------------------------------------------------------------------------
  // What every run keeps
  // ---------------------------------------------------------------------------

  /** A cached row is the stored row of its credential. */
  ghost predicate CacheCurrent(d: Desk) {
    forall h :: h in d.cache ==>
      h in d.db.credentials && d.db.credentials[h].passportId in d.db.passports
      && d.cache[h].row == d.db.passports[d.db.credentials[h].passportId]
  }

  /** Every stored passport carries a valid signature, and every credential names a stored passport. */
  ghost predicate Sound(c: Crypto, db: Db) {
    && (forall id :: id in db.passports ==>
          SignatureOk(c, db.passports[id]) && db.passports[id].signingScheme == "ed25519"
          && db.passports[id].passportId == id)
    && (forall h :: h in db.credentials ==> db.credentials[h].passportId in db.passports)
  }

  lemma DoKeepsCacheCurrent(c: Crypto, d: Desk, op: Op, now: int)
    requires CacheCurrent(d)
    ensures CacheCurrent(Do(c, d, op, now))
  {
    hide ValidatePassport, NewPassport, RevokedRow, ToggledRow, Issuable;
    if op.OpVerify? {
      ValidateGivesRow(c, d, op.token, op.production, now);
    }
  }

  lemma ValidateGivesRow(c: Crypto, d: Desk, token: string, production: bool, now: int)
    ensures var r := Lookup(c, d.db, token, production, now); var h := c.tokenHash(token);
      r.Accepted? ==> h in d.db.credentials && d.db.credentials[h].passportId in d.db.passports
                      && r.row == d.db.passports[d.db.credentials[h].passportId]
  {
  }

  lemma DoKeepsSound(c: Crypto, d: Desk, op: Op, now: int)
    requires SignsAndVerifies(c) && Sound(c, d.db)
    ensures Sound(c, Do(c, d, op, now).db)
  {
    hide ValidatePassport, SignatureOk, SignsAndVerifies, NewPassport, RevokedRow, ToggledRow, Issuable;
    match op
    case OpIssue(r) => NewPassportIsSigned(c, r, now);
    case OpSystem => NewPassportIsSigned(c, SYSTEM_REQUEST, now);
    case OpRevoke(id, reason) =>
      if id in d.db.passports { ChangedRowsAreSigned(c, d.db.passports[id], reason, true, now); }
    case OpToggle(id, enabled) =>
      if id in d.db.passports { ChangedRowsAreSigned(c, d.db.passports[id], None, enabled, now); }
    case OpVerify(token, production, monotonic) => ValidateGivesRow(c, d, token, production, now);
  }

  lemma NewPassportIsSigned(c: Crypto, r: Request, now: int)
    requires SignsAndVerifies(c)
    ensures var row := NewPassport(c, r, now);
      SignatureOk(c, row) && row.signingScheme == "ed25519" && row.passportId == r.passportId
  {
    hide SignatureOk, NormalizeScope;
    SignedIsOk(c, Passport(
      r.passportId, AgentRegistry.Strip(r.agentName), r.agentClass, AgentRegistry.Strip(r.ownerEmail),
      NormalizeScope(r.scopeClusters), NormalizeScope(r.scopeIntents), NormalizeScope(r.scopeSkills),
      now, now + r.ttlHours * HOUR, None, false, None, None, "", "ed25519", now));
  }

  lemma ChangedRowsAreSigned(c: Crypto, row: Passport, reason: Option<string>, enabled: bool, now: int)
    requires SignsAndVerifies(c)
    ensures SignatureOk(c, RevokedRow(c, row, reason, now)) && SignatureOk(c, ToggledRow(c, row, enabled))
    ensures RevokedRow(c, row, reason, now).passportId == ToggledRow(c, row, enabled).passportId == row.passportId
    ensures RevokedRow(c, row, reason, now).signingScheme == ToggledRow(c, row, enabled).signingScheme
        == row.signingScheme
  {
    hide SignatureOk;
    var why := if reason.Some? && reason.value != "" then reason.value else "revoked";
    SignedIsOk(c, row.(revokedAt := Some(now), revocationReason := Some(why)));
    SignedIsOk(c, row.(killSwitch := enabled));
  }

  lemma {:induction false} RunKeepsInvariants(c: Crypto, ops: seq<(Op, int)>)
    requires SignsAndVerifies(c)
    ensures CacheCurrent(Run(c, EMPTY, ops)) && Sound(c, Run(c, EMPTY, ops).db)
  {
    if ops == [] {
    } else {
      hide Do, CacheCurrent, Sound, SignsAndVerifies;
      var init, last := ops[..|ops| - 1], ops[|ops| - 1];
      RunKeepsInvariants(c, init);
      DoKeepsCacheCurrent(c, Run(c, EMPTY, init), last.0, last.1);
      DoKeepsSound(c, Run(c, EMPTY, init), last.0, last.1);
    }
  }

  /** With atomic calls the cache is invisible: the answer is always that of the uncached lookup. */
  lemma {:induction false} CachedVerifyIsLookup(c: Crypto, ops: seq<(Op, int)>, token: string, production: bool,
      now: int, monotonic: int)
    requires SignsAndVerifies(c)
    ensures var d := Run(c, EMPTY, ops);
      Verify(c, d, token, production, now, monotonic).1 == Lookup(c, d.db, token, production, now)
  {
    hide Run, ValidatePassport, SignsAndVerifies, Sound;
    RunKeepsInvariants(c, ops);
  }

  /** A credential is accepted exactly when its passport is listed as active at the same instant. */
  lemma {:induction false} AcceptedExactlyWhenListedActive(c: Crypto, ops: seq<(Op, int)>, token: string,
      production: bool, now: int, monotonic: int)
    requires SignsAndVerifies(c) && !Barred(token, production)
    ensures var d := Run(c, EMPTY, ops); var h := c.tokenHash(token);
      Verify(c, d, token, production, now, monotonic).1.Accepted?
      <==> h in d.db.credentials
           && exists row :: row in ListPassports(d.db, true, now) && row.passportId == d.db.credentials[h].passportId
  {
    var d := Run(c, EMPTY, ops);
    var h := c.tokenHash(token);
    hide Run, SignsAndVerifies, Verify, SignatureOk;
    RunKeepsInvariants(c, ops);
    CachedVerifyIsLookup(c, ops, token, production, now, monotonic);
    if h in d.db.credentials {
      var id := d.db.credentials[h].passportId;
      assert Active(d.db.passports[id], now) ==> d.db.passports[id] in ListPassports(d.db, true, now);
    }
  }

  ghost predicate IsRevoked(db: Db, id: string) { id in db.passports && db.passports[id].revokedAt.Some? }

  lemma {:induction false} RevocationIsPermanent(c: Crypto, d: Desk, ops: seq<(Op, int)>, id: string)
    requires IsRevoked(d.db, id)
    ensures IsRevoked(Run(c, d, ops).db, id)
    decreases |ops|
  {
    if ops == [] {
    } else {
      hide ValidatePassport;
      RevocationIsPermanent(c, d, ops[..|ops| - 1], id);
    }
  }

  /** After a revocation no sequence of calls ever gets the passport accepted again. */
  lemma {:induction false} RevokedIsNeverAccepted(c: Crypto, before: seq<(Op, int)>, after: seq<(Op, int)>, id: string,
                               token: string, production: bool, now: int, monotonic: int)
    requires SignsAndVerifies(c)
    requires IsRevoked(Run(c, EMPTY, before).db, id)
    ensures var r := Verify(c, Run(c, EMPTY, before + after), token, production, now, monotonic).1;
      r.Accepted? ==> r.row.passportId != id
  {
    var d := Run(c, EMPTY, before + after);
    RunConcat(c, before, after);
    RevocationIsPermanent(c, Run(c, EMPTY, before), after, id);
    RunKeepsInvariants(c, before + after);
    CachedVerifyIsLookup(c, before + after, token, production, now, monotonic);
    hide Run, Verify, SignsAndVerifies;
  }

  lemma {:induction false} RunConcat(c: Crypto, before: seq<(Op, int)>, after: seq<(Op, int)>)
    ensures Run(c, EMPTY, before + after) == Run(c, Run(c, EMPTY, before), after)
    decreases |after|
  {
    hide Do;
    if after == [] {
      assert before + after == before;
    } else {
      var init := after[..|after| - 1];
      assert (before + after)[..|before + after| - 1] == before + init;
      RunConcat(c, before, init);
    }
  }

  // ---------------------------------------------------------------------------
  // The service of the source
  // ---------------------------------------------------------------------------

  class PassportService {
    const crypto: Crypto
    var passports: map<string, Passport>
    var credentials: map<string, Credential>
    var cache: map<string, Entry>

    ghost function View(): Desk
      reads this
    {
      Desk(Db(passports, credentials), cache)
    }

    constructor (crypto: Crypto)
      ensures this.crypto == crypto && View() == EMPTY
    {
      this.crypto := crypto;
      passports, credentials, cache := map[], map[], map[];
    }

    method ClearCache()
      modifies this`cache
      ensures cache == map[]
    {
      cache := map[];
    }

    method IssuePassport(r: Request, now: int) returns (row: Option<Passport>)
      modifies this
      ensures View() == Issue(crypto, old(View()), r, now)
      ensures row.Some? <==> Issuable(crypto, old(View()), r)
      ensures row.Some? ==> row.value == passports[r.passportId]
    {
      hide NewPassport;
      if r.agentClass !in VALID_AGENT_CLASSES {
        return None;
      }
      if r.ttlHours <= 0 {
        return None;
      }
      if r.passportId in passports || crypto.tokenHash(r.token) in credentials {
        return None;  // the commit violates a primary key
      }
      passports := passports[r.passportId := NewPassport(crypto, r, now)];
      credentials := credentials[crypto.tokenHash(r.token) := Credential(r.passportId, 0, None)];
      ClearCache();
      return Some(passports[r.passportId]);
    }

    method EnsureSystem(now: int)
      modifies this
      ensures View() == EnsureSystemPassport(crypto, old(View()), now)
    {
      hide Issue;
      if SYSTEM_PASSPORT_ID in passports {
        return;
      }
      var _ := IssuePassport(SYSTEM_REQUEST, now);
    }

    method VerifyPassport(token: string, production: bool, now: int, monotonic: int) returns (r: Result)
      modifies this
      ensures (View(), r) == Verify(crypto, old(View()), token, production, now, monotonic)
    {
      hide ValidatePassport;
      if token == SYSTEM_PASSPORT_TOKEN && production {
        return Refused(InvalidOrMissing);
      }
      var h := crypto.tokenHash(token);
      if h in cache && cache[h].expiry > monotonic {
        return ValidatePassport(crypto, cache[h].row, now);
      }
      if h !in credentials {
        return Refused(CredentialNotFound);
      }
      if credentials[h].passportId !in passports {
        return Refused(PassportNotFound);
      }
      var row := passports[credentials[h].passportId];
      r := ValidatePassport(crypto, row, now);
      AcceptedIsRow(crypto, row, now);
      if r.Refused? {
        return r;
      }
      credentials := credentials[h := Presented(credentials[h], now)];
      cache := cache[h := Entry(monotonic + VERIFY_CACHE_TTL, row)];
    }

    method RevokePassport(id: string, reason: Option<string>, now: int) returns (found: bool)
      modifies this
      ensures View() == Revoke(crypto, old(View()), id, reason, now)
      ensures found <==> id in old(passports)
    {
      hide RevokedRow;
      if id !in passports {
        return false;
      }
      passports := passports[id := RevokedRow(crypto, passports[id], reason, now)];
      ClearCache();
      return true;
    }

    method SetKillSwitch(id: string, enabled: bool) returns (found: bool)
      modifies this
      ensures View() == ToggleKillSwitch(crypto, old(View()), id, enabled)
      ensures found <==> id in old(passports)
    {
      hide ToggledRow;
      if id !in passports {
        return false;
      }
      passports := passports[id := ToggledRow(crypto, passports[id], enabled)];
      ClearCache();
      return true;
    }
  }

  lemma AcceptedIsRow(c: Crypto, row: Passport, now: int)
    ensures ValidatePassport(c, row, now).Accepted? ==> ValidatePassport(c, row, now).row == row
  {
    hide SignatureOk;
  }
}

/** What each passport operation does, on the columns of the row. */
module PassportRules {
  import opened Prelude
  import opened Passports
  import AgentRegistry

  // ---------------------------------------------------------------------------
  // Rows
  // ---------------------------------------------------------------------------

  /** The issuer signature is the encoded signature of all the other columns. */
  predicate Sealed(c: Crypto, row: Passport) {
    row.issuerSignature == c.encode(c.sign(row.(issuerSignature := "")))
  }

  /** Throwing the switch changes the switch and the signature, and no other column. */
  lemma ToggledRowExactly(c: Crypto, row: Passport, enabled: bool)
    ensures var r := ToggledRow(c, row, enabled);
      && r.killSwitch == enabled && Sealed(c, r)
      && r == row.(killSwitch := r.killSwitch, issuerSignature := r.issuerSignature)
  {
    assert Canonical(ToggledRow(c, row, enabled)) == Canonical(row.(killSwitch := enabled));
  }

  /** A revocation dates and explains itself, re-signs, and changes no other column. */
  lemma RevokedRowExactly(c: Crypto, row: Passport, reason: Option<string>, now: int)
    ensures var r := RevokedRow(c, row, reason, now);
      && r.revokedAt == Some(now) && Sealed(c, r)
      && r.revocationReason == (if reason == None || reason == Some("") then Some("revoked") else reason)
      && r == row.(revokedAt := r.revokedAt, revocationReason := r.revocationReason,
                   issuerSignature := r.issuerSignature)
  {
    var r := RevokedRow(c, row, reason, now);
    assert Canonical(r) == Canonical(row.(revokedAt := r.revokedAt, revocationReason := r.revocationReason));
  }

  /** A new passport is valid at once and for the hours asked for, neither switched off nor revoked. */
  lemma NewPassportExactly(c: Crypto, r: Request, now: int)
    ensures var row := NewPassport(c, r, now);
      && row.passportId == r.passportId && row.agentClass == r.agentClass
      && row.agentName == AgentRegistry.Strip(r.agentName) && row.ownerEmail == AgentRegistry.Strip(r.ownerEmail)
      && row.issuedAt == row.createdAt == now && row.expiresAt == now + r.ttlHours * 60 * 60 * 1_000_000
      && row.notBefore == None && !row.killSwitch && row.revokedAt == None && row.revocationReason == None
      && row.signingScheme == "ed25519" && Sealed(c, row)
  {
    hide NormalizeScope, AgentRegistry.Strip;
    var row := NewPassport(c, r, now);
    assert row == row.(issuerSignature := row.issuerSignature);
    assert Canonical(row) == Passport(
      r.passportId, AgentRegistry.Strip(r.agentName), r.agentClass, AgentRegistry.Strip(r.ownerEmail),
      NormalizeScope(r.scopeClusters), NormalizeScope(r.scopeIntents), NormalizeScope(r.scopeSkills),
      now, now + r.ttlHours * HOUR, None, false, None, None, "", "ed25519", now);
  }

  // ---------------------------------------------------------------------------
  // Scopes
  // ---------------------------------------------------------------------------

  /** Some requested value is this item, but for blanks around it. */
  ghost predicate Asks(values: seq<string>, item: string) {
    item != "" && exists v :: v in values && AgentRegistry.Strip(v) == item
  }

  lemma {:induction false} CleanedIsAsked(values: seq<string>, item: string)
    ensures item in Cleaned(values) <==> Asks(values, item)
  {
    hide AgentRegistry.Strip;
    if values != [] {
      CleanedIsAsked(values[1..], item);
      assert values == [values[0]] + values[1..];
    }
  }

  lemma {:induction false} DistinctOnce(values: seq<string>)
    ensures forall i, j :: 0 <= i < j < |Distinct(values)| ==> Distinct(values)[i] != Distinct(values)[j]
  {
    if values != [] {
      var rest := Distinct(values[1..]);
      DistinctOnce(values[1..]);
      if values[0] !in rest {
        forall j | 0 <= j < |rest| ensures rest[j] != values[0] { assert rest[j] in rest; }
      }
    }
  }

  lemma OnceIsCounted(s: seq<string>)
    requires forall i, j :: 0 <= i < j < |s| ==> s[i] != s[j]
    ensures forall x :: multiset(s)[x] <= 1
  {
    if s != [] {
      var init := s[..|s| - 1];
      OnceIsCounted(init);
      assert s == init + [s[|s| - 1]];
      assert s[|s| - 1] !in multiset(init) by {
        forall i | 0 <= i < |init| ensures init[i] != s[|s| - 1] {}
      }
    }
  }

  lemma CountedIsOnce(s: seq<string>, i: nat, j: nat)
    requires i < j < |s| && multiset(s)[s[i]] <= 1
    ensures s[i] != s[j]
  {
    assert s == s[..j] + [s[j]] + s[j + 1..];
    assert s[..j] == s[..i] + [s[i]] + s[i + 1..j];
    assert multiset(s[..j])[s[i]] >= 1;
    assert multiset(s)[s[i]] >= multiset(s[..j])[s[i]] + multiset([s[j]])[s[i]];
  }

  /** A stored scope is the wildcard alone, or the items asked for in increasing order. */
  lemma NormalizeScopeExactly(values: seq<string>)
    ensures var scope := NormalizeScope(values);
      if Asks(values, "*") then scope == ["*"]
      else (forall x :: x in scope <==> Asks(values, x))
           && forall i, j :: 0 <= i < j < |scope| ==> StrLt(scope[i], scope[j])
  {
    hide StrLe, Asks, Cleaned, Distinct, Sort;
    forall x ensures x in Cleaned(values) <==> Asks(values, x) { CleanedIsAsked(values, x); }
    var once := Distinct(Cleaned(values));
    DistinctKeepsMembers(Cleaned(values));
    DistinctOnce(Cleaned(values));
    OnceIsCounted(once);
    StrLePreorder();
    SortCorrect(StrLe, once);
    SortMembers(StrLe, once);
    var sorted := Sort(StrLe, once);
    forall i, j | 0 <= i < j < |sorted| ensures StrLt(sorted[i], sorted[j]) { CountedIsOnce(sorted, i, j); }
  }

  lemma AllowsAsked(values: seq<string>, x: string)
    ensures Allows(NormalizeScope(values), x) <==> Asks(values, "*") || Asks(values, x)
  {
    hide NormalizeScope, Asks, StrLe;
    NormalizeScopeExactly(values);
    assert "*" in ["*"];
  }

  /** An issued passport allows what was asked for: its cluster, its intent, and its skill if one is named. */
  lemma IssuedScopeExactly(c: Crypto, r: Request, now: int, intent: string, clusterId: Option<string>,
                           skillId: Option<string>)
    ensures CheckScope(NewPassport(c, r, now), intent, clusterId, skillId)
       <==> && (Asks(r.scopeClusters, "*") || (clusterId.Some? && Asks(r.scopeClusters, clusterId.value)))
            && (Asks(r.scopeIntents, "*") || Asks(r.scopeIntents, intent))
            && (Asks(r.scopeSkills, "*") || skillId == None || Asks(r.scopeSkills, skillId.value))
  {
    ScopesOfNew(c, r, now);
    hide NormalizeScope, Asks, NewPassport, StrLe;
    AllowsAsked(r.scopeClusters, "*");
    AllowsAsked(r.scopeSkills, "*");
    AllowsAsked(r.scopeIntents, intent);
    if clusterId.Some? { AllowsAsked(r.scopeClusters, clusterId.value); }
    if skillId.Some? { AllowsAsked(r.scopeSkills, skillId.value); }
  }

  lemma ScopesOfNew(c: Crypto, r: Request, now: int)
    ensures var row := NewPassport(c, r, now);
      && row.scopeClusters == NormalizeScope(r.scopeClusters) && row.scopeIntents == NormalizeScope(r.scopeIntents)
      && row.scopeSkills == NormalizeScope(r.scopeSkills)
  {
    hide NormalizeScope;
  }

  // ---------------------------------------------------------------------------
  // Verification
  // ---------------------------------------------------------------------------

  /** What is wrong with a row, error by error. */
  predicate Fails(c: Crypto, row: Passport, now: int, e: Error) {
    match e
    case UnsupportedScheme => row.signingScheme != "ed25519"
    case BadSignature =>
      var signature := c.decode(row.issuerSignature);
      signature == None || !c.verify(row.(issuerSignature := ""), signature.value)
    case NotYetValid => row.notBefore.Some? && now < row.notBefore.value
    case Expired => row.expiresAt <= now
    case Revoked => row.revokedAt.Some?
    case KillSwitched => row.killSwitch
    case _ => false
  }

  function Rank(e: Error): nat {
    match e
    case InvalidOrMissing => 0
    case CredentialNotFound => 1
    case PassportNotFound => 2
    case UnsupportedScheme => 3
    case BadSignature => 4
    case NotYetValid => 5
    case Expired => 6
    case Revoked => 7
    case KillSwitched => 8
  }

  /** A row is accepted exactly when nothing is wrong with it, and refused for the first thing that is. */
  lemma ValidateExactly(c: Crypto, row: Passport, now: int)
    ensures var r := ValidatePassport(c, row, now);
      if r.Accepted? then r.row == row && forall e :: !Fails(c, row, now, e)
      else Fails(c, row, now, r.error) && forall e :: Rank(e) < Rank(r.error) ==> !Fails(c, row, now, e)
  {
  }

  /** Why a token is refused: barred, unknown, without a passport, or on a row with something wrong. */
  predicate Refuses(c: Crypto, db: Db, token: string, production: bool, now: int, e: Error) {
    var h := c.tokenHash(token);
    match e
    case InvalidOrMissing => token == "demo_passport" && production
    case CredentialNotFound => h !in db.credentials
    case PassportNotFound => h in db.credentials && db.credentials[h].passportId !in db.passports
    case _ =>
      h in db.credentials && db.credentials[h].passportId in db.passports
      && Fails(c, db.passports[db.credentials[h].passportId], now, e)
  }

  /** The lookup accepts exactly when no reason applies, and refuses with the first that does. */
  lemma LookupExactly(c: Crypto, db: Db, token: string, production: bool, now: int)
    ensures var r, h := Lookup(c, db, token, production, now), c.tokenHash(token);
      if r.Accepted? then
        && h in db.credentials && db.credentials[h].passportId in db.passports
        && r.row == db.passports[db.credentials[h].passportId]
        && forall e :: !Refuses(c, db, token, production, now, e)
      else
        && Refuses(c, db, token, production, now, r.error)
        && forall e :: Rank(e) < Rank(r.error) ==> !Refuses(c, db, token, production, now, e)
  {
    hide Fails, ValidatePassport;
    var h := c.tokenHash(token);
    if h in db.credentials && db.credentials[h].passportId in db.passports {
      var row := db.passports[db.credentials[h].passportId];
      ValidateExactly(c, row, now);
      RowErrors(c, row, now);
    }
  }

  lemma RowErrors(c: Crypto, row: Passport, now: int)
    ensures forall e :: Fails(c, row, now, e) ==> Rank(e) >= 3
  {
  }

  /** An acceptance that reads the row counts the presentation and keeps the row for a minute; nothing else changes. */
  lemma VerifyEffects(c: Crypto, d: Desk, token: string, production: bool, now: int, monotonic: int)
    ensures var (t, r) := Verify(c, d, token, production, now, monotonic); var h := c.tokenHash(token);
      if r.Refused? || (h in d.cache && d.cache[h].expiry > monotonic) then t == d
      else
        && h in d.db.credentials && h in t.db.credentials && h in t.cache
        && t == Desk(d.db.(credentials := d.db.credentials[h := t.db.credentials[h]]), d.cache[h := t.cache[h]])
        && t.db.credentials[h].passportId == d.db.credentials[h].passportId
        && t.db.credentials[h].presentedCount == d.db.credentials[h].presentedCount + 1
        && t.db.credentials[h].lastPresentedAt == Some(now)
        && t.cache[h].row == r.row && t.cache[h].expiry == monotonic + 60 * 1_000_000
  {
    hide ValidatePassport;
  }

  // ---------------------------------------------------------------------------
  // The kill switch
  // ---------------------------------------------------------------------------

  ghost predicate SwitchedOff(db: Db, id: string) { id in db.passports && db.passports[id].killSwitch }

  lemma DoKeepsSwitchedOff(c: Crypto, d: Desk, op: Op, now: int, id: string)
    requires SwitchedOff(d.db, id) && op != OpToggle(id, false)
    ensures SwitchedOff(Do(c, d, op, now).db, id)
  {
    hide ValidatePassport, NewPassport, RevokedRow, ToggledRow;
    if op.OpRevoke? && op.id in d.db.passports {
      RevokedRowExactly(c, d.db.passports[op.id], op.reason, now);
    } else if op.OpToggle? && op.id in d.db.passports {
      ToggledRowExactly(c, d.db.passports[op.id], op.enabled);
    }
  }

  lemma {:induction false} StaysSwitchedOff(c: Crypto, d: Desk, ops: seq<(Op, int)>, id: string)
    requires SwitchedOff(d.db, id) && forall i :: 0 <= i < |ops| ==> ops[i].0 != OpToggle(id, false)
    ensures SwitchedOff(Run(c, d, ops).db, id)
    decreases |ops|
  {
    if ops != [] {
      hide Do, SwitchedOff;
      StaysSwitchedOff(c, d, ops[..|ops| - 1], id);
      DoKeepsSwitchedOff(c, Run(c, d, ops[..|ops| - 1]), ops[|ops| - 1].0, ops[|ops| - 1].1, id);
    }
  }

  lemma SwitchingOff(c: Crypto, d: Desk, id: string, at: int)
    requires id in d.db.passports
    ensures SwitchedOff(Do(c, d, OpToggle(id, true), at).db, id)
  {
    hide ToggledRow;
    ToggledRowExactly(c, d.db.passports[id], true);
  }

  lemma RunSnoc(c: Crypto, d: Desk, ops: seq<(Op, int)>, op: Op, at: int)
    ensures Run(c, d, ops + [(op, at)]) == Do(c, Run(c, d, ops), op, at)
  {
    hide Do;
    assert (ops + [(op, at)])[..|ops|] == ops;
  }

  /** Once a passport is switched off, nothing but switching it on again ever gets it accepted. */
  lemma {:induction false} SwitchedOffIsNeverAccepted(c: Crypto, before: seq<(Op, int)>, id: string, at: int,
      after: seq<(Op, int)>, token: string, production: bool, now: int, monotonic: int)
    requires SignsAndVerifies(c) && id in Passports.Run(c, EMPTY, before).db.passports
    requires forall i :: 0 <= i < |after| ==> after[i].0 != OpToggle(id, false)
    ensures var d := Run(c, EMPTY, before + [(OpToggle(id, true), at)] + after);
      var r := Verify(c, d, token, production, now, monotonic).1;
      r.Accepted? ==> r.row.passportId != id
  {
    hide Do, Run, Verify, ValidatePassport, SignsAndVerifies;
    var off := before + [(OpToggle(id, true), at)];
    RunSnoc(c, EMPTY, before, OpToggle(id, true), at);
    SwitchingOff(c, Run(c, EMPTY, before), id, at);
    RunConcat(c, off, after);
    StaysSwitchedOff(c, Run(c, EMPTY, off), after, id);
    RunKeepsInvariants(c, off + after);
    CachedVerifyIsLookup(c, off + after, token, production, now, monotonic);
    var db := Run(c, EMPTY, off + after).db;
    LookupExactly(c, db, token, production, now);
    assert Fails(c, db.passports[id], now, KillSwitched);
    assert Lookup(c, db, token, production, now).Accepted? ==> !Refuses(c, db, token, production, now, KillSwitched);
  }

  /** Switching it on again gets it accepted exactly when it is unrevoked, unexpired and valid by then. */
  lemma {:induction false} SwitchedOnIsAcceptedExactly(c: Crypto, before: seq<(Op, int)>, id: string, at: int,
      token: string, production: bool, now: int, monotonic: int)
    requires SignsAndVerifies(c) && !(token == "demo_passport" && production)
    requires var db := Run(c, EMPTY, before).db;
      && id in db.passports && c.tokenHash(token) in db.credentials
      && db.credentials[c.tokenHash(token)].passportId == id
    ensures var row := Run(c, EMPTY, before).db.passports[id];
      var d := Run(c, EMPTY, before + [(OpToggle(id, false), at)]);
      Verify(c, d, token, production, now, monotonic).1.Accepted?
      <==> row.revokedAt == None && now < row.expiresAt && (row.notBefore == None || row.notBefore.value <= now)
  {
    hide Run, Verify, ValidatePassport, SignsAndVerifies, ToggledRow, SignatureOk;
    var on := before + [(OpToggle(id, false), at)];
    var db := Run(c, EMPTY, before).db;
    RunSnoc(c, EMPTY, before, OpToggle(id, false), at);
    ToggledRowExactly(c, db.passports[id], false);
    RunKeepsInvariants(c, on);
    CachedVerifyIsLookup(c, on, token, production, now, monotonic);
    var row := Run(c, EMPTY, on).db.passports[id];
    assert SignatureOk(c, row) && row.signingScheme == "ed25519";
    SoundRowAccepted(c, row, now);
    hide Sealed;
  }

  lemma SoundRowAccepted(c: Crypto, row: Passport, now: int)
    requires SignatureOk(c, row) && row.signingScheme == "ed25519"
    ensures ValidatePassport(c, row, now).Accepted?
       <==> row.revokedAt == None && !row.killSwitch && now < row.expiresAt
            && (row.notBefore == None || row.notBefore.value <= now)
  {
    hide SignatureOk;
  }

  /** An issue of a known class for a positive time under new keys stores both rows and clears the cache. */
  lemma IssueExactly(c: Crypto, d: Desk, r: Request, now: int)
    ensures var t := Issue(c, d, r, now); var h := c.tokenHash(r.token);
      if r.agentClass in {"internal", "external_mcp", "skill_runner"} && r.ttlHours > 0
         && r.passportId !in d.db.passports && h !in d.db.credentials then
        && t.db.passports == d.db.passports[r.passportId := NewPassport(c, r, now)]
        && t.db.credentials == d.db.credentials[h := Credential(r.passportId, 0, None)] && t.cache == map[]
      else t == d
  {
    hide NewPassport;
  }

  /** The demo passport holds the wildcard in every scope for 365 days, and is issued only where it is missing. */
  lemma SystemPassportExactly(c: Crypto, d: Desk, now: int)
    ensures var t := EnsureSystemPassport(c, d, now);
      if "demo_passport" in d.db.passports || c.tokenHash("demo_passport") in d.db.credentials then t == d
      else
        && t == Desk(Db(d.db.passports["demo_passport" := NewPassport(c, SYSTEM_REQUEST, now)],
                        d.db.credentials[c.tokenHash("demo_passport") := Credential("demo_passport", 0, None)]), map[])
        && var row := NewPassport(c, SYSTEM_REQUEST, now);
           && row.passportId == "demo_passport" && row.agentClass == "internal"
           && row.agentName == "demo_system_agent" && row.ownerEmail == "system@axiom.local"
           && row.scopeClusters == row.scopeIntents == row.scopeSkills == ["*"]
           && row.expiresAt == now + 365 * 24 * 60 * 60 * 1_000_000
  {
    hide NewPassport, NormalizeScope, AgentRegistry.Strip;
    AgentRegistry.StripExactly("", "demo_system_agent", "");
    AgentRegistry.StripExactly("", "system@axiom.local", "");
    AgentRegistry.StripExactly("", "*", "");
    assert forall s: string :: "" + s + "" == s;
    assert "*" in ["*"] && Asks(["*"], "*");
    NormalizeScopeExactly(["*"]);
    NewPassportExactly(c, SYSTEM_REQUEST, now);
    ScopesOfNew(c, SYSTEM_REQUEST, now);
  }
}

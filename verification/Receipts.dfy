/** The signed, hash-linked receipt ledger: canonical payloads and the append. */
module Receipts {
  import opened Prelude
  import AgentRegistry

  /** A stored row; times are in microseconds. */
  datatype Receipt = Receipt(
    id: string, actionId: string, agentName: string, intent: string,
    targetEntityId: Option<string>, clusterId: Option<string>,
    decision: string, reason: string, policyId: string, passportId: Option<string>,
    guidance: Option<string>, suggestedAlternative: Option<string>,
    signingScheme: string, signature: string,
    prevHash: Option<string>, thisHash: string,
    reservedState: Option<string>, demoFlag: bool, createdAt: int)

  /** What a caller hands to the append; the caller's own scheme and signature are not used. */
  datatype ReceiptInsert = ReceiptInsert(
    id: string, actionId: string, agentName: string, intent: string,
    targetEntityId: Option<string>, clusterId: Option<string>,
    decision: string, reason: string, policyId: string, passportId: Option<string>,
    guidance: Option<string>, suggestedAlternative: Option<string>,
    signingScheme: string, signature: string,
    demoFlag: bool, reservedState: Option<string>)

  // ---------------------------------------------------------------------------
  // Canonical payloads
  // ---------------------------------------------------------------------------

  /** The keys of a receipt's dictionary, and the key "sig" that only exclusions name. */
  datatype Column =
    | Id | ActionId | AgentName | Intent | TargetEntityId | ClusterId | Decision | Reason | PolicyId
    | PassportId | Guidance | SuggestedAlternative | SigningScheme | Signature | PrevHash | ThisHash
    | ReservedState | DemoFlag | CreatedAt | Sig

  datatype Value = Null | Text(text: string) | Flag(flag: bool) | Instant(at: int)

  type Payload = map<Column, Value>

  function Nullable(o: Option<string>): Value {
    match o
    case None => Null
    case Some(s) => Text(s)
  }

  predicate TextOrNull(v: Value, o: Option<string>) { if o.Some? then v == Text(o.value) else v == Null }

  function Field(r: Receipt, c: Column): Value {
    match c
    case Id => Text(r.id)
    case ActionId => Text(r.actionId)
    case AgentName => Text(r.agentName)
    case Intent => Text(r.intent)
    case TargetEntityId => Nullable(r.targetEntityId)
    case ClusterId => Nullable(r.clusterId)
    case Decision => Text(r.decision)
    case Reason => Text(r.reason)
    case PolicyId => Text(r.policyId)
    case PassportId => Nullable(r.passportId)
    case Guidance => Nullable(r.guidance)
    case SuggestedAlternative => Nullable(r.suggestedAlternative)
    case SigningScheme => Text(r.signingScheme)
    case Signature => Text(r.signature)
    case PrevHash => Nullable(r.prevHash)
    case ThisHash => Text(r.thisHash)
    case ReservedState => Nullable(r.reservedState)
    case DemoFlag => Flag(r.demoFlag)
    case CreatedAt => Instant(r.createdAt)
    case Sig => Null
  }

  /** Every key but "sig". */
  const COLUMNS: set<Column> := {
    Id, ActionId, AgentName, Intent, TargetEntityId, ClusterId, Decision, Reason, PolicyId, PassportId,
    Guidance, SuggestedAlternative, SigningScheme, Signature, PrevHash, ThisHash, ReservedState,
    DemoFlag, CreatedAt }

  function ToDict(r: Receipt): Payload {
    map c | c in COLUMNS :: Field(r, c)
  }

  /** Drops the excluded keys, and a passport id that is null. */
  function CanonicalDict(r: Receipt, exclude: set<Column>): Payload {
    var payload := ToDict(r) - exclude;
    if PassportId in payload && payload[PassportId] == Null then payload - {PassportId} else payload
  }

  const HASH_EXCLUDE: set<Column> := {ThisHash}
  const SIGNING_EXCLUDE: set<Column> := {Signature, Sig, ThisHash}
  const LEGACY_EXCLUDE: set<Column> := {Signature, Sig, ThisHash, PrevHash}

  function HashPayload(r: Receipt): Payload { CanonicalDict(r, HASH_EXCLUDE) }

  function SigningPayload(r: Receipt): Payload { CanonicalDict(r, SIGNING_EXCLUDE) }

  function LegacyPayload(r: Receipt): Payload { CanonicalDict(r, LEGACY_EXCLUDE) }

  lemma FieldOfTexts(r: Receipt)
    ensures Field(r, Id) == Text(r.id) && Field(r, ActionId) == Text(r.actionId)
    ensures Field(r, AgentName) == Text(r.agentName) && Field(r, Intent) == Text(r.intent)
    ensures Field(r, Decision) == Text(r.decision) && Field(r, Reason) == Text(r.reason)
  {
  }

  lemma FieldOfLaterTexts(r: Receipt)
    ensures Field(r, PolicyId) == Text(r.policyId) && Field(r, SigningScheme) == Text(r.signingScheme)
    ensures Field(r, Signature) == Text(r.signature) && Field(r, ThisHash) == Text(r.thisHash)
    ensures Field(r, DemoFlag) == Flag(r.demoFlag) && Field(r, CreatedAt) == Instant(r.createdAt)
  {
  }

  lemma DictionaryEntry(r: Receipt, exclude: set<Column>, c: Column)
    requires c != Sig && c !in exclude && (c == PassportId ==> r.passportId.Some?)
    ensures c in CanonicalDict(r, exclude) && CanonicalDict(r, exclude)[c] == Field(r, c)
  {
    hide Field;
    hide COLUMNS;
    EveryColumn(c);
    if c == PassportId { FieldOfPassport(r); }
  }

  lemma FieldOfPassport(r: Receipt)
    requires r.passportId.Some?
    ensures Field(r, PassportId) == Text(r.passportId.value)
  {
  }

  lemma FieldOfNullables(r: Receipt)
    ensures TextOrNull(Field(r, TargetEntityId), r.targetEntityId) && TextOrNull(Field(r, ClusterId), r.clusterId)
    ensures TextOrNull(Field(r, Guidance), r.guidance) && TextOrNull(Field(r, PrevHash), r.prevHash)
    ensures TextOrNull(Field(r, SuggestedAlternative), r.suggestedAlternative)
    ensures TextOrNull(Field(r, ReservedState), r.reservedState) && TextOrNull(Field(r, PassportId), r.passportId)
  {
  }

  /** The entry of each key that is not excluded; only a null passport id has none. */
  lemma DictionaryOfTexts(r: Receipt, exclude: set<Column>)
    ensures var m := CanonicalDict(r, exclude);
      && (Id !in exclude ==> Id in m && m[Id] == Text(r.id))
      && (ActionId !in exclude ==> ActionId in m && m[ActionId] == Text(r.actionId))
      && (AgentName !in exclude ==> AgentName in m && m[AgentName] == Text(r.agentName))
      && (Intent !in exclude ==> Intent in m && m[Intent] == Text(r.intent))
      && (Decision !in exclude ==> Decision in m && m[Decision] == Text(r.decision))
      && (Reason !in exclude ==> Reason in m && m[Reason] == Text(r.reason))
    ensures var m := CanonicalDict(r, exclude);
      && (PolicyId !in exclude ==> PolicyId in m && m[PolicyId] == Text(r.policyId))
      && (SigningScheme !in exclude ==> SigningScheme in m && m[SigningScheme] == Text(r.signingScheme))
      && (Signature !in exclude ==> Signature in m && m[Signature] == Text(r.signature))
      && (ThisHash !in exclude ==> ThisHash in m && m[ThisHash] == Text(r.thisHash))
      && (DemoFlag !in exclude ==> DemoFlag in m && m[DemoFlag] == Flag(r.demoFlag))
      && (CreatedAt !in exclude ==> CreatedAt in m && m[CreatedAt] == Instant(r.createdAt))
  {
    hide Field, COLUMNS, CanonicalDict;
    FieldOfTexts(r);
    FieldOfLaterTexts(r);
    forall c | c != Sig && c != PassportId && c !in exclude
      ensures c in CanonicalDict(r, exclude) && CanonicalDict(r, exclude)[c] == Field(r, c)
    {
      DictionaryEntry(r, exclude, c);
    }
  }

  lemma DictionaryOfNullables(r: Receipt, exclude: set<Column>)
    ensures var m := CanonicalDict(r, exclude);
      && (TargetEntityId !in exclude ==> TargetEntityId in m && TextOrNull(m[TargetEntityId], r.targetEntityId))
      && (ClusterId !in exclude ==> ClusterId in m && TextOrNull(m[ClusterId], r.clusterId))
      && (Guidance !in exclude ==> Guidance in m && TextOrNull(m[Guidance], r.guidance))
      && (SuggestedAlternative !in exclude ==>
            SuggestedAlternative in m && TextOrNull(m[SuggestedAlternative], r.suggestedAlternative))
      && (PrevHash !in exclude ==> PrevHash in m && TextOrNull(m[PrevHash], r.prevHash))
      && (ReservedState !in exclude ==> ReservedState in m && TextOrNull(m[ReservedState], r.reservedState))
    ensures var m := CanonicalDict(r, exclude);
      && (PassportId in m <==> PassportId !in exclude && r.passportId.Some?)
      && (PassportId in m ==> m[PassportId] == Text(r.passportId.value))
      && Sig !in m && forall c :: c in m ==> c !in exclude
  {
    DictionaryKeys(r, exclude);
    hide Field, COLUMNS, CanonicalDict;
    FieldOfNullables(r);
    forall c | c != Sig && c != PassportId && c !in exclude
      ensures c in CanonicalDict(r, exclude) && CanonicalDict(r, exclude)[c] == Field(r, c)
    {
      DictionaryEntry(r, exclude, c);
    }
    if PassportId !in exclude && r.passportId.Some? { DictionaryEntry(r, exclude, PassportId); }
  }

  lemma DictionaryKeys(r: Receipt, exclude: set<Column>)
    ensures var m := CanonicalDict(r, exclude);
      && Sig !in m && (forall c :: c in m ==> c !in exclude) && (r.passportId.None? ==> PassportId !in m)
  {
    EveryColumn(Sig);
    FieldOfNullables(r);
    hide Field, COLUMNS;
  }

  /** A payload pins every field it does not exclude, a null passport id included. */
  lemma CanonicalDictPins(r: Receipt, q: Receipt, exclude: set<Column>, c: Column)
    requires c in COLUMNS && c !in exclude
    requires CanonicalDict(r, exclude) == CanonicalDict(q, exclude)
    ensures Field(r, c) == Field(q, c)
  {
    hide Field, COLUMNS;
    var m, n := CanonicalDict(r, exclude), CanonicalDict(q, exclude);
    if c in m {
      assert m[c] == Field(r, c) && n[c] == Field(q, c);
    } else {
      assert c == PassportId && Field(r, c) == Null;
      assert c !in n;
    }
  }

  /** ... and depends on nothing else. */
  lemma CanonicalDictReads(r: Receipt, q: Receipt, exclude: set<Column>)
    requires forall c :: c in COLUMNS && c !in exclude ==> Field(r, c) == Field(q, c)
    ensures CanonicalDict(r, exclude) == CanonicalDict(q, exclude)
  {
    hide Field, COLUMNS;
    assert ToDict(r) - exclude == ToDict(q) - exclude;
  }

  lemma EveryColumn(c: Column)
    ensures c in COLUMNS <==> c != Sig
  {
  }

  lemma FrontFieldsPin(r: Receipt, q: Receipt)
    requires forall c :: c != Sig ==> Field(r, c) == Field(q, c)
    ensures r.id == q.id && r.actionId == q.actionId && r.agentName == q.agentName && r.intent == q.intent
        && r.targetEntityId == q.targetEntityId
    ensures r.clusterId == q.clusterId && r.decision == q.decision && r.reason == q.reason
        && r.policyId == q.policyId && r.passportId == q.passportId
  {
    hide COLUMNS;
    assert r.id == q.id by { assert Field(r, Id) == Field(q, Id); }
    assert r.actionId == q.actionId by { assert Field(r, ActionId) == Field(q, ActionId); }
    assert r.agentName == q.agentName by { assert Field(r, AgentName) == Field(q, AgentName); }
    assert r.intent == q.intent by { assert Field(r, Intent) == Field(q, Intent); }
    assert r.targetEntityId == q.targetEntityId by { assert Field(r, TargetEntityId) == Field(q, TargetEntityId); }
    assert r.clusterId == q.clusterId by { assert Field(r, ClusterId) == Field(q, ClusterId); }
    assert r.decision == q.decision by { assert Field(r, Decision) == Field(q, Decision); }
    assert r.reason == q.reason by { assert Field(r, Reason) == Field(q, Reason); }
    assert r.policyId == q.policyId by { assert Field(r, PolicyId) == Field(q, PolicyId); }
    assert r.passportId == q.passportId by { assert Field(r, PassportId) == Field(q, PassportId); }
  }

  lemma BackFieldsPin(r: Receipt, q: Receipt)
    requires forall c :: c != Sig ==> Field(r, c) == Field(q, c)
    ensures r.guidance == q.guidance && r.suggestedAlternative == q.suggestedAlternative
        && r.signingScheme == q.signingScheme && r.signature == q.signature && r.prevHash == q.prevHash
    ensures r.thisHash == q.thisHash && r.reservedState == q.reservedState && r.demoFlag == q.demoFlag
        && r.createdAt == q.createdAt
  {
    hide COLUMNS;
    assert r.guidance == q.guidance by { assert Field(r, Guidance) == Field(q, Guidance); }
    assert r.suggestedAlternative == q.suggestedAlternative by {
      assert Field(r, SuggestedAlternative) == Field(q, SuggestedAlternative);
    }
    assert r.signingScheme == q.signingScheme by { assert Field(r, SigningScheme) == Field(q, SigningScheme); }
    assert r.signature == q.signature by { assert Field(r, Signature) == Field(q, Signature); }
    assert r.prevHash == q.prevHash by { assert Field(r, PrevHash) == Field(q, PrevHash); }
    assert r.thisHash == q.thisHash by { assert Field(r, ThisHash) == Field(q, ThisHash); }
    assert r.reservedState == q.reservedState by { assert Field(r, ReservedState) == Field(q, ReservedState); }
    assert r.demoFlag == q.demoFlag by { assert Field(r, DemoFlag) == Field(q, DemoFlag); }
    assert r.createdAt == q.createdAt by { assert Field(r, CreatedAt) == Field(q, CreatedAt); }
  }

  lemma FieldsPin(r: Receipt, q: Receipt)
    requires forall c :: c != Sig ==> Field(r, c) == Field(q, c)
    ensures r == q
  {
    hide *;
    FrontFieldsPin(r, q);
    BackFieldsPin(r, q);
  }

  /** The hashed payload together with the stored hash determines the whole row. */
  lemma HashPayloadPins(r: Receipt, q: Receipt)
    requires HashPayload(r) == HashPayload(q) && r.thisHash == q.thisHash
    ensures r == q
  {
    forall c: Column | c != Sig ensures Field(r, c) == Field(q, c) {
      hide Field, COLUMNS;
      EveryColumn(c);
      if c == ThisHash {
        ThisHashField(r);
        ThisHashField(q);
      } else {
        CanonicalDictPins(r, q, HASH_EXCLUDE, c);
      }
    }
    hide *;
    FieldsPin(r, q);
  }

  lemma ThisHashField(r: Receipt)
    ensures Field(r, ThisHash) == Text(r.thisHash)
  {
  }

  /** Changing what is filled in after signing, or the link, changes those fields only. */
  lemma SealingFields(r: Receipt, signature: string, thisHash: string, prevHash: Option<string>, c: Column)
    ensures c != Signature && c != ThisHash ==>
      Field(r.(signature := signature, thisHash := thisHash), c) == Field(r, c)
    ensures c == Signature ==> Field(r.(signature := signature, thisHash := thisHash), c) == Text(signature)
    ensures c == ThisHash ==> Field(r.(signature := signature, thisHash := thisHash), c) == Text(thisHash)
    ensures c != ThisHash ==> Field(r.(thisHash := thisHash), c) == Field(r, c)
    ensures c != PrevHash ==> Field(r.(prevHash := prevHash), c) == Field(r, c)
  {
  }

  /** The signed payload commits to the position in the chain and to every field but signature and hash. */
  lemma SigningPayloadPins(r: Receipt, q: Receipt)
    requires SigningPayload(r) == SigningPayload(q)
    ensures r == q.(signature := r.signature, thisHash := r.thisHash)
  {
    hide *;
    var p := q.(signature := r.signature, thisHash := r.thisHash);
    forall c: Column | c != Sig ensures Field(r, c) == Field(p, c) {
      SignedFieldPins(r, q, c);
    }
    FieldsPin(r, p);
  }

  lemma SignedFieldPins(r: Receipt, q: Receipt, c: Column)
    requires SigningPayload(r) == SigningPayload(q) && c != Sig
    ensures Field(r, c) == Field(q.(signature := r.signature, thisHash := r.thisHash), c)
  {
    hide Field, COLUMNS, CanonicalDict;
    EveryColumn(c);
    SealingFields(q, r.signature, r.thisHash, None, c);
    SealingFields(r, r.signature, r.thisHash, None, c);
    assert r == r.(signature := r.signature, thisHash := r.thisHash);
    if c !in SIGNING_EXCLUDE {
      CanonicalDictPins(r, q, SIGNING_EXCLUDE, c);
    }
  }

  /** The signed payload does not read the two fields that are filled in after signing. */
  lemma SigningPayloadStable(r: Receipt, signature: string, thisHash: string)
    ensures SigningPayload(r.(signature := signature, thisHash := thisHash)) == SigningPayload(r)
  {
    hide Field, COLUMNS, CanonicalDict;
    var q := r.(signature := signature, thisHash := thisHash);
    forall c | c in COLUMNS && c !in SIGNING_EXCLUDE ensures Field(q, c) == Field(r, c) {
      SealingFields(r, signature, thisHash, None, c);
    }
    CanonicalDictReads(q, r, SIGNING_EXCLUDE);
  }

  lemma HashPayloadStable(r: Receipt, thisHash: string)
    ensures HashPayload(r.(thisHash := thisHash)) == HashPayload(r)
  {
    hide Field, COLUMNS, CanonicalDict;
    var q := r.(thisHash := thisHash);
    forall c | c in COLUMNS && c !in HASH_EXCLUDE ensures Field(q, c) == Field(r, c) {
      SealingFields(r, "", thisHash, None, c);
    }
    CanonicalDictReads(q, r, HASH_EXCLUDE);
  }

  /** The legacy payload says nothing about the position in the chain. */
  lemma LegacyPayloadIgnoresPosition(r: Receipt, prevHash: Option<string>)
    ensures LegacyPayload(r.(prevHash := prevHash)) == LegacyPayload(r)
  {
    hide Field, COLUMNS, CanonicalDict;
    var q := r.(prevHash := prevHash);
    forall c | c in COLUMNS && c !in LEGACY_EXCLUDE ensures Field(q, c) == Field(r, c) {
      SealingFields(r, "", "", prevHash, c);
    }
    CanonicalDictReads(q, r, LEGACY_EXCLUDE);
  }

  // ---------------------------------------------------------------------------
  // Hashing and signing, idealised
  // ---------------------------------------------------------------------------

  type Bytes = seq<bv8>
  type Key = Bytes

  const SIGNATURE_LENGTH := 64

  datatype Crypto = Crypto(
    digest: Payload -> string,
    sign: Payload -> Bytes,
    verify: (Payload, Bytes, Key) -> bool,
    encode: Bytes -> string,
    decode: string -> Option<Bytes>,
    publicKey: Key)

  /** Signatures have 64 bytes and verify; base64 text decodes to what was encoded. */
  ghost predicate SignsAndVerifies(c: Crypto) {
    && (forall p: Payload :: |c.sign(p)| == SIGNATURE_LENGTH && c.verify(p, c.sign(p), c.publicKey))
    && (forall b: Bytes :: c.decode(c.encode(b)) == Some(b))
  }

  ghost predicate CollisionFree(c: Crypto) {
    forall p: Payload, q: Payload :: c.digest(p) == c.digest(q) ==> p == q
  }

  function ComputeHash(c: Crypto, r: Receipt): string { c.digest(HashPayload(r)) }

  // ---------------------------------------------------------------------------
  // Row order
  // ---------------------------------------------------------------------------

  predicate RowLe(r: Receipt, q: Receipt) {
    r.createdAt < q.createdAt || (r.createdAt == q.createdAt && StrLe(r.id, q.id))
  }

  lemma RowOrder()
    ensures TotalPreorder(RowLe)
  {
    forall x: Receipt, y: Receipt ensures RowLe(x, y) || RowLe(y, x) {
      StrLeTotal(x.id, y.id);
    }
    forall x: Receipt, y: Receipt, z: Receipt | RowLe(x, y) && RowLe(y, z) ensures RowLe(x, z) {
      if x.createdAt == y.createdAt == z.createdAt { StrLeTransitive(x.id, y.id, z.id); }
    }
  }

  /** SELECT ... ORDER BY created_at, id. */
  function Ordered(rows: seq<Receipt>): seq<Receipt> { Sort(RowLe, rows) }

  /** SELECT ... ORDER BY created_at DESC, id DESC LIMIT 1. */
  function Latest(rows: seq<Receipt>): Option<Receipt> {
    var sorted := Ordered(rows);
    if sorted == [] then None else Some(sorted[|sorted| - 1])
  }

  /** The listing holds the rows of the table, by date and then by id. */
  lemma OrderedIsListing(rows: seq<Receipt>)
    ensures multiset(Ordered(rows)) == multiset(rows)
    ensures var listed := Ordered(rows);
      forall i, j :: 0 <= i < j < |listed| ==>
        listed[i].createdAt < listed[j].createdAt
        || (listed[i].createdAt == listed[j].createdAt && StrLe(listed[i].id, listed[j].id))
  {
    hide StrLe;
    RowOrder();
    SortCorrect(RowLe, rows);
  }

  /** The row found is in the table, and comes last by date and then by id. */
  lemma LatestIsLatest(rows: seq<Receipt>)
    ensures Latest(rows).None? <==> rows == []
    ensures Latest(rows).Some? ==> Latest(rows).value in rows
    ensures Latest(rows).Some? ==> forall r :: r in rows ==> r.createdAt <= Latest(rows).value.createdAt
    ensures Latest(rows).Some? ==> forall r :: r in rows && r.createdAt == Latest(rows).value.createdAt ==>
      StrLe(r.id, Latest(rows).value.id)
  {
    RowOrder();
    SortMembers(RowLe, rows);
    SortCorrect(RowLe, rows);
    var sorted := Ordered(rows);
    if sorted != [] {
      assert sorted[|sorted| - 1] in sorted;
      var last := sorted[|sorted| - 1];
      forall r | r in rows
        ensures r.createdAt <= last.createdAt && (r.createdAt == last.createdAt ==> StrLe(r.id, last.id))
      {
        StrLeTotal(last.id, last.id);
        LastIsLargest(RowLe, sorted, r);
      }
    }
  }

  // ---------------------------------------------------------------------------
  // The append
  // ---------------------------------------------------------------------------

  datatype Ledger = Ledger(rows: seq<Receipt>, registry: AgentRegistry.Table)

  const EMPTY := Ledger([], map[])

  datatype Outcome =
    | Inserted(receipt: Receipt)
    | Existing(receipt: Receipt)
    | DuplicateId

  /** The row with this action id, if any; the table's unique constraint allows one at most. */
  function FindAction(rows: seq<Receipt>, actionId: string): Option<Receipt> {
    if rows == [] then None
    else if rows[0].actionId == actionId then Some(rows[0])
    else FindAction(rows[1..], actionId)
  }

  predicate HasId(rows: seq<Receipt>, id: string) { exists r :: r in rows && r.id == id }

  predicate HasAction(rows: seq<Receipt>, actionId: string) {
    exists r :: r in rows && r.actionId == actionId
  }

  lemma {:induction false} FindActionFinds(rows: seq<Receipt>, actionId: string)
    ensures FindAction(rows, actionId).Some? <==> HasAction(rows, actionId)
    ensures FindAction(rows, actionId).Some? ==>
      FindAction(rows, actionId).value in rows && FindAction(rows, actionId).value.actionId == actionId
  {
    if rows == [] {
    } else {
      assert rows == [rows[0]] + rows[1..];
      if rows[0].actionId != actionId {
        FindActionFinds(rows[1..], actionId);
      }
    }
  }

  /** The wall clock, pushed past the latest row when it has not moved past it by itself. */
  function StampAfter(latest: Option<Receipt>, now: int): int {
    if latest.Some? && now <= latest.value.createdAt then latest.value.createdAt + 1 else now
  }

  function Unsealed(p: ReceiptInsert, latest: Option<Receipt>, at: int): Receipt {
    Receipt(p.id, p.actionId, p.agentName, p.intent, p.targetEntityId, p.clusterId, p.decision, p.reason,
            p.policyId, p.passportId, p.guidance, p.suggestedAlternative, "ed25519", "",
            if latest.Some? then Some(latest.value.thisHash) else None, "",
            p.reservedState, p.demoFlag, at)
  }

  function Sealed(c: Crypto, r: Receipt): Receipt {
    var signed := r.(signature := c.encode(c.sign(SigningPayload(r))));
    signed.(thisHash := ComputeHash(c, signed))
  }

  function NewRow(c: Crypto, rows: seq<Receipt>, p: ReceiptInsert, now: int): Receipt {
    Sealed(c, Unsealed(p, Latest(rows), StampAfter(Latest(rows), now)))
  }

  function Observed(r: Receipt): AgentRegistry.Observation {
    AgentRegistry.Observation(r.agentName, r.decision, r.intent, r.actionId, r.createdAt, r.demoFlag)
  }

  function AllObserved(rows: seq<Receipt>): seq<AgentRegistry.Observation> {
    seq(|rows|, i requires 0 <= i < |rows| => Observed(rows[i]))
  }

  /** What one call does: nothing for a known action id, an error for a taken row id, else one row. */
  function Append(c: Crypto, l: Ledger, p: ReceiptInsert, now: int): (Ledger, Outcome) {
    var existing := FindAction(l.rows, p.actionId);
    if existing.Some? then (l, Existing(existing.value))
    else if HasId(l.rows, p.id) then (l, DuplicateId)
    else
      var r := NewRow(c, l.rows, p, now);
      (Ledger(l.rows + [r], AgentRegistry.Upserted(l.registry, Observed(r))), Inserted(r))
  }

  /** The append inserts exactly when neither the action id nor the row id is in the table,
      and keeps what it is given. */
  lemma AppendedRow(c: Crypto, l: Ledger, p: ReceiptInsert, at: int)
    ensures var m, r := Append(c, l, p, at).0.rows, NewRow(c, l.rows, p, at);
      if HasAction(l.rows, p.actionId) || HasId(l.rows, p.id) then m == l.rows else m == l.rows + [r]
    ensures var r := NewRow(c, l.rows, p, at);
      && r.id == p.id && r.actionId == p.actionId && r.agentName == p.agentName && r.intent == p.intent
      && r.targetEntityId == p.targetEntityId && r.policyId == p.policyId && r.passportId == p.passportId
      && r.guidance == p.guidance && r.decision == p.decision && r.demoFlag == p.demoFlag
      && r.clusterId == p.clusterId && r.reason == p.reason && r.suggestedAlternative == p.suggestedAlternative
      && r.reservedState == p.reservedState && r.signingScheme == "ed25519"
  {
    hide HasAction, FindAction, HasId;
    FindActionFinds(l.rows, p.actionId);
  }

  lemma HasActionSnoc(rows: seq<Receipt>, r: Receipt, a: string)
    ensures HasAction(rows + [r], a) <==> HasAction(rows, a) || r.actionId == a
  {
    if HasAction(rows, a) {
      var q :| q in rows && q.actionId == a;
      assert q in rows + [r];
    }
    if r.actionId == a {
      assert r in rows + [r];
    }
  }

  /** The database tables the append works on. */
  class ReceiptLedger {
    const crypto: Crypto
    var rows: seq<Receipt>
    const registry: AgentRegistry.RegistryTable

    ghost function View(): Ledger
      reads this, registry
    {
      Ledger(rows, registry.rows)
    }

    constructor (crypto: Crypto)
      ensures this.crypto == crypto && fresh(registry) && View() == EMPTY
    {
      this.crypto := crypto;
      rows := [];
      registry := new AgentRegistry.RegistryTable();
    }

    method ChainInsertReceipt(p: ReceiptInsert, now: int) returns (outcome: Outcome)
      modifies this, registry
      ensures (View(), outcome) == Append(crypto, old(View()), p, now)
    {
      hide SigningPayload, ComputeHash, Latest, AgentRegistry.Upserted;
      var existing := FindAction(rows, p.actionId);
      if existing.Some? {
        return Existing(existing.value);
      }
      var previous := Latest(rows);
      var createdAt := now;
      if previous.Some? && createdAt <= previous.value.createdAt {
        createdAt := previous.value.createdAt + 1;
      }
      var receipt := Unsealed(p, previous, createdAt);
      receipt := receipt.(signature := crypto.encode(crypto.sign(SigningPayload(receipt))));
      receipt := receipt.(thisHash := ComputeHash(crypto, receipt));
      if HasId(rows, receipt.id) {
        return DuplicateId;  // the flush violates the primary key and everything is rolled back
      }
      rows := rows + [receipt];
      registry.UpsertAgentObservation(Observed(receipt));
      return Inserted(receipt);
    }
  }

  /** A known action id gives its row back, a taken row id is refused, and both leave everything as it was. */
  lemma AppendOutcomes(c: Crypto, l: Ledger, p: ReceiptInsert, now: int)
    ensures var (m, o) := Append(c, l, p, now);
      if exists r :: r in l.rows && r.actionId == p.actionId then
        m == l && o.Existing? && o.receipt in l.rows && o.receipt.actionId == p.actionId
      else if exists r :: r in l.rows && r.id == p.id then m == l && o == DuplicateId
      else |m.rows| == |l.rows| + 1 && m.rows[..|l.rows|] == l.rows && o == Inserted(m.rows[|l.rows|])
  {
    hide FindAction, NewRow;
    FindActionFinds(l.rows, p.actionId);
  }

  /** The new row carries the clock when it is ahead of every row, and else the date after the latest. */
  lemma StampExactly(c: Crypto, rows: seq<Receipt>, p: ReceiptInsert, now: int)
    ensures var at := NewRow(c, rows, p, now).createdAt;
      if forall r :: r in rows ==> r.createdAt < now then at == now
      else (exists r :: r in rows && at == r.createdAt + 1) && forall r :: r in rows ==> r.createdAt < at
  {
    hide Latest, StrLe, SigningPayload, ComputeHash;
    LatestIsLatest(rows);
  }

  // ---------------------------------------------------------------------------
  // One append, on any table at all
  // ---------------------------------------------------------------------------

  /** Whatever the clock says, the new row is dated after every row there is. */
  lemma NewRowIsLatest(c: Crypto, rows: seq<Receipt>, p: ReceiptInsert, now: int)
    ensures forall r :: r in rows ==> r.createdAt < NewRow(c, rows, p, now).createdAt
    ensures Ordered(rows + [NewRow(c, rows, p, now)]) == Ordered(rows) + [NewRow(c, rows, p, now)]
  {
    RowOrder();
    LatestIsLatest(rows);
    SortSnocLargest(RowLe, rows, NewRow(c, rows, p, now));
  }

  /** The new row links to the last row of the ordered listing and carries its own hash and signature. */
  lemma NewRowSealed(c: Crypto, rows: seq<Receipt>, p: ReceiptInsert, now: int)
    requires SignsAndVerifies(c)
    ensures var r := NewRow(c, rows, p, now); var listed := Ordered(rows);
      && r.prevHash == (if listed == [] then None else Some(listed[|listed| - 1].thisHash))
      && r.thisHash == ComputeHash(c, r)
      && r.signingScheme == "ed25519"
      && c.decode(r.signature) == Some(c.sign(SigningPayload(r)))
  {
    var u := Unsealed(p, Latest(rows), StampAfter(Latest(rows), now));
    var r := NewRow(c, rows, p, now);
    var signed := u.(signature := c.encode(c.sign(SigningPayload(u))));
    SigningPayloadStable(u, r.signature, r.thisHash);
    HashPayloadStable(signed, r.thisHash);
    assert r == u.(signature := r.signature, thisHash := r.thisHash);
  }
}

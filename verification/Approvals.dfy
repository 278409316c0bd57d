/**
 * Approval requests and the receipts that record their outcome. Resolving a request and appending its
 * receipt are two transactions, so other calls run in between, and a call can die there.
 */
module Approvals {
  import opened Prelude
  import opened Receipts
  import LedgerRuns

  datatype Status = Pending | Approved | Denied | Expired

  datatype Approval = Approval(
    id: string, actionId: string, agentName: string, passportId: Option<string>, intent: string,
    targetEntityId: Option<string>, policyId: string, reason: string, guidance: Option<string>,
    requiredRole: string, status: Status, createdAt: int, expiresAt: int,
    resolvedAt: Option<int>, resolvedBy: Option<string>, resolutionNote: Option<string>)

  datatype Error = UserRequired | NotFound | AlreadyResolved(status: Status)

  // ---------------------------------------------------------------------------
  // Action ids of resolution receipts
  // ---------------------------------------------------------------------------

  const PREFIX := "approval:"
  const DENY := "deny"
  const EXPIRED := "expired"

  function ActionKey(id: string, decision: string): string { PREFIX + id + ":" + decision }

  predicate IsKey(a: string, decision: string) {
    var n := |decision| + 1;
    && |PREFIX| + n <= |a| && a[..|PREFIX|] == PREFIX && a[|a| - n..] == ":" + decision
  }

  function NamedId(a: string, decision: string): string
    requires IsKey(a, decision)
  {
    a[|PREFIX|..|a| - |decision| - 1]
  }

  predicate Reserved(a: string) { IsKey(a, DENY) || IsKey(a, EXPIRED) }

  /** The action id of a resolution receipt determines the request. */
  lemma KeyNames(id: string, decision: string)
    ensures IsKey(ActionKey(id, decision), decision) && NamedId(ActionKey(id, decision), decision) == id
  {
    var a := ActionKey(id, decision);
    assert a == PREFIX + (id + (":" + decision));
    assert a[..|PREFIX|] == PREFIX;
    assert a == (PREFIX + id) + (":" + decision);
    assert a[|a| - |decision| - 1..] == ":" + decision;
    assert a[|PREFIX|..|a| - |decision| - 1] == id;
  }

  /** ... and the decision. */
  lemma KeysDiffer(id: string, id': string)
    ensures ActionKey(id, DENY) != ActionKey(id', EXPIRED)
  {
    var a, b := ActionKey(id, DENY), ActionKey(id', EXPIRED);
    assert a[|a| - 1] == 'y' && b[|b| - 1] == 'd';
  }

  lemma KeyOfName(a: string, decision: string)
    requires IsKey(a, decision)
    ensures a == ActionKey(NamedId(a, decision), decision)
  {
    assert a == a[..|PREFIX|] + NamedId(a, decision) + a[|a| - |decision| - 1..];
  }

  function DecisionOf(status: Status): Option<string> {
    match status
    case Denied => Some(DENY)
    case Expired => Some(EXPIRED)
    case _ => None
  }

  // ---------------------------------------------------------------------------
  // The steps
  // ---------------------------------------------------------------------------

  /** A receipt that a running call has still to append. */
  datatype Debt = Debt(row: Approval, decision: string, reason: string)

  /** History: `lost` holds the requests whose call died before its receipt was appended. */
  datatype State = State(rows: map<string, Approval>, ledger: Ledger, inFlight: seq<Debt>, lost: set<string>)

  const START := State(map[], EMPTY, [], {})

  datatype Step =
    | Create(row: Approval)
    | Approve(id: string, byUser: string, note: Option<string>, now: int)
    | Deny(id: string, byUser: string, note: Option<string>, now: int)
    | Expire(now: int, listed: seq<string>)
    | Pay(k: nat, receiptId: string, at: int)
    | Die(k: nat)
    | OtherInsert(insert: ReceiptInsert, at: int)

  function Resolved(row: Approval, status: Status, byUser: string, note: Option<string>, now: int): Approval {
    row.(status := status, resolvedAt := Some(now), resolvedBy := Some(byUser), resolutionNote := note)
  }

  function ExpiredRow(row: Approval, now: int): Approval {
    row.(status := Expired, resolvedAt := Some(now), resolutionNote := Some("approval expired"))
  }

  predicate Resolvable(rows: map<string, Approval>, id: string, byUser: string) {
    byUser != "" && id in rows && rows[id].status == Pending
  }

  predicate Overdue(row: Approval, now: int) { row.status == Pending && row.expiresAt <= now }

  /** The overdue requests, each once, in whatever order the query returns them. */
  ghost predicate Lists(listed: seq<string>, rows: map<string, Approval>, now: int) {
    && (forall id :: id in listed <==> id in rows && Overdue(rows[id], now))
    && (forall i, j :: 0 <= i < j < |listed| ==> listed[i] != listed[j])
  }

  function DenialReason(note: Option<string>): string {
    if note.Some? && note.value != "" then note.value else "approval denied"
  }

  function ExpiryDebts(rows: map<string, Approval>, listed: seq<string>, now: int): seq<Debt>
    requires forall id :: id in listed ==> id in rows
  {
    seq(|listed|, i requires 0 <= i < |listed| => Debt(ExpiredRow(rows[listed[i]], now), EXPIRED, "approval expired"))
  }

  function AfterExpiry(rows: map<string, Approval>, now: int): map<string, Approval> {
    map id | id in rows :: if Overdue(rows[id], now) then ExpiredRow(rows[id], now) else rows[id]
  }

  function ResolutionReceipt(d: Debt, receiptId: string): ReceiptInsert {
    ReceiptInsert(
      receiptId, ActionKey(d.row.id, d.decision), d.row.agentName, d.row.intent, d.row.targetEntityId, None,
      d.decision, d.reason, d.row.policyId, d.row.passportId, d.row.guidance, None, "ed25519", "", false, None)
  }

  function Without<T>(s: seq<T>, k: nat): seq<T>
    requires k < |s|
  {
    s[..k] + s[k + 1..]
  }

  /** New ids are fresh, and nothing else uses the action ids of resolution receipts. */
  ghost predicate Enabled(s: State, step: Step) {
    match step
    case Create(row) => row.id !in s.rows && row.status == Pending
    case Approve(id, byUser, _, _) => Resolvable(s.rows, id, byUser)
    case Deny(id, byUser, _, _) => Resolvable(s.rows, id, byUser)
    case Expire(now, listed) => Lists(listed, s.rows, now)
    case Pay(k, receiptId, _) => k < |s.inFlight| && !HasId(s.ledger.rows, receiptId)
    case Die(k) => k < |s.inFlight|
    case OtherInsert(insert, _) => !Reserved(insert.actionId)
  }

  ghost function Next(c: Crypto, s: State, step: Step): State
    requires Enabled(s, step)
  {
    match step
    case Create(row) => s.(rows := s.rows[row.id := row])
    case Approve(id, byUser, note, now) =>
      s.(rows := s.rows[id := Resolved(s.rows[id], Approved, byUser, note, now)])
    case Deny(id, byUser, note, now) =>
      var row := Resolved(s.rows[id], Denied, byUser, note, now);
      s.(rows := s.rows[id := row], inFlight := s.inFlight + [Debt(row, DENY, DenialReason(note))])
    case Expire(now, listed) =>
      s.(rows := AfterExpiry(s.rows, now), inFlight := s.inFlight + ExpiryDebts(s.rows, listed, now))
    case Pay(k, receiptId, at) =>
      s.(ledger := Append(c, s.ledger, ResolutionReceipt(s.inFlight[k], receiptId), at).0,
         inFlight := Without(s.inFlight, k))
    case Die(k) => s.(inFlight := Without(s.inFlight, k), lost := s.lost + {s.inFlight[k].row.id})
    case OtherInsert(insert, at) => s.(ledger := Append(c, s.ledger, insert, at).0)
  }

  ghost function Do(c: Crypto, s: State, step: Step): State { if Enabled(s, step) then Next(c, s, step) else s }

  ghost function Run(c: Crypto, s: State, steps: seq<Step>): State {
    if steps == [] then s else Do(c, Run(c, s, steps[..|steps| - 1]), steps[|steps| - 1])
  }

  // ---------------------------------------------------------------------------
  // A request leaves pending at most once
  // ---------------------------------------------------------------------------

  /** What no step changes in a request. */
  predicate SameRequest(row: Approval, was: Approval) {
    row == was.(status := row.status, resolvedAt := row.resolvedAt, resolvedBy := row.resolvedBy,
                resolutionNote := row.resolutionNote)
  }

  lemma StepKeepsResolved(c: Crypto, s: State, step: Step, id: string)
    requires id in s.rows
    ensures id in Do(c, s, step).rows && SameRequest(Do(c, s, step).rows[id], s.rows[id])
    ensures s.rows[id].status != Pending ==> Do(c, s, step).rows[id] == s.rows[id]
  {
    hide Lists, Append, ExpiryDebts, IsKey;
    if step.Expire? { assert forall i :: i in s.rows ==> i in AfterExpiry(s.rows, step.now); }
  }

  /** Once resolved, a request never changes again; until then only its resolution can change. */
  lemma {:induction false} ResolutionIsFinal(c: Crypto, s: State, steps: seq<Step>, id: string)
    requires id in s.rows
    ensures id in Run(c, s, steps).rows && SameRequest(Run(c, s, steps).rows[id], s.rows[id])
    ensures s.rows[id].status != Pending ==> Run(c, s, steps).rows[id] == s.rows[id]
    decreases |steps|
  {
    if steps == [] {
    } else {
      hide Do;
      ResolutionIsFinal(c, s, steps[..|steps| - 1], id);
      StepKeepsResolved(c, Run(c, s, steps[..|steps| - 1]), steps[|steps| - 1], id);
    }
  }

  // ---------------------------------------------------------------------------
  // Requests and receipts correspond
  // ---------------------------------------------------------------------------

  ghost predicate DebtOk(s: State, d: Debt) {
    && d.row.id in s.rows && s.rows[d.row.id] == d.row && DecisionOf(d.row.status) == Some(d.decision)
    && !HasAction(s.ledger.rows, ActionKey(d.row.id, d.decision))
    && d.row.id !in s.lost && d.reason == ReasonOf(d.row, d.decision)
  }

  ghost predicate Owes(s: State, id: string) {
    exists k :: 0 <= k < |s.inFlight| && s.inFlight[k].row.id == id
  }

  /** A denied or expired request has its receipt, or its call is still running, or the call died. */
  ghost predicate Settled(s: State, id: string)
    requires id in s.rows
  {
    var decision := DecisionOf(s.rows[id].status);
    decision.Some? ==>
      HasAction(s.ledger.rows, ActionKey(id, decision.value)) || Owes(s, id) || id in s.lost
  }

  predicate Carries(r: Receipt, row: Approval, decision: string) {
    && r.agentName == row.agentName && r.intent == row.intent && r.targetEntityId == row.targetEntityId
    && r.policyId == row.policyId && r.passportId == row.passportId && r.guidance == row.guidance
    && r.decision == decision && r.reason == ReasonOf(row, decision) && !r.demoFlag
  }

  /** The resolver's note on a denial, where there is one, and else a fixed text. */
  function ReasonOf(row: Approval, decision: string): string {
    if decision == EXPIRED then "approval expired"
    else if row.resolutionNote.Some? && row.resolutionNote.value != "" then row.resolutionNote.value
    else "approval denied"
  }

  /** A resolution receipt names a stored request that was resolved that way. */
  ghost predicate Explained(s: State, r: Receipt, decision: string) {
    IsKey(r.actionId, decision) ==>
      var id := NamedId(r.actionId, decision);
      id in s.rows && id !in s.lost && DecisionOf(s.rows[id].status) == Some(decision)
      && Carries(r, s.rows[id], decision)
  }

  ghost predicate RowsOk(s: State) { forall id :: id in s.rows ==> s.rows[id].id == id && Settled(s, id) }

  ghost predicate DebtsOk(s: State) { forall k :: 0 <= k < |s.inFlight| ==> DebtOk(s, s.inFlight[k]) }

  ghost predicate DebtsDistinct(s: State) {
    forall j, k :: 0 <= j < k < |s.inFlight| ==> s.inFlight[j].row.id != s.inFlight[k].row.id
  }

  ghost predicate ReceiptsOk(s: State) {
    forall r :: r in s.ledger.rows ==> Explained(s, r, DENY) && Explained(s, r, EXPIRED)
  }

  ghost predicate LostOk(s: State) {
    forall id :: id in s.lost ==> id in s.rows && DecisionOf(s.rows[id].status).Some?
  }

  ghost predicate Inv(s: State) {
    && RowsOk(s) && DebtsOk(s) && DebtsDistinct(s) && ReceiptsOk(s) && LostOk(s)
    && LedgerRuns.UniqueKeys(s.ledger.rows)
  }

  // Resolved requests are untouched by what happens to others.

  /** A pending request has no receipt, no debt, and is not lost. */
  lemma PendingIsClean(s: State, id: string)
    requires Inv(s) && id in s.rows && s.rows[id].status == Pending
    ensures !HasAction(s.ledger.rows, ActionKey(id, DENY)) && !HasAction(s.ledger.rows, ActionKey(id, EXPIRED))
    ensures forall k :: 0 <= k < |s.inFlight| ==> s.inFlight[k].row.id != id
    ensures id !in s.lost
  {
    hide RowsOk, IsKey, NamedId, Carries, ActionKey;
    KeyNames(id, DENY);
    KeyNames(id, EXPIRED);
    forall k | 0 <= k < |s.inFlight| ensures s.inFlight[k].row.id != id {
      assert DebtOk(s, s.inFlight[k]);
    }
    forall r | r in s.ledger.rows ensures r.actionId != ActionKey(id, DENY) && r.actionId != ActionKey(id, EXPIRED) {
      assert Explained(s, r, DENY) && Explained(s, r, EXPIRED);
    }
  }

  /** The requests other than those in `ids` are as they were. */
  ghost predicate OthersSame(s: State, t: State, ids: set<string>) {
    && t.ledger == s.ledger && t.lost == s.lost && s.inFlight <= t.inFlight
    && (forall id :: id in s.rows && id !in ids ==> id in t.rows && t.rows[id] == s.rows[id])
    && (forall id :: id in s.rows && id in ids ==> s.rows[id].status == Pending)
  }

  lemma OthersSameKeeps(s: State, t: State, ids: set<string>)
    requires Inv(s) && OthersSame(s, t, ids)
    ensures ReceiptsOk(t) && LostOk(t)
    ensures forall k :: 0 <= k < |s.inFlight| ==> DebtOk(t, s.inFlight[k])
    ensures forall id :: id in s.rows && id !in ids ==> t.rows[id].id == id && Settled(t, id)
  {
    hide IsKey, NamedId, Carries, ActionKey, HasAction, LedgerRuns.UniqueKeys;
    forall k | 0 <= k < |s.inFlight| ensures DebtOk(t, s.inFlight[k]) {
      assert DebtOk(s, s.inFlight[k]);
    }
    forall r | r in t.ledger.rows ensures Explained(t, r, DENY) && Explained(t, r, EXPIRED) {
      assert Explained(s, r, DENY) && Explained(s, r, EXPIRED);
    }
    forall id | id in s.rows && id !in ids ensures t.rows[id].id == id && Settled(t, id) {
      assert Settled(s, id);
      if Owes(s, id) {
        var k :| 0 <= k < |s.inFlight| && s.inFlight[k].row.id == id;
        assert t.inFlight[k].row.id == id;
      }
    }
  }

  lemma CreateKeepsInv(c: Crypto, s: State, row: Approval)
    requires Inv(s) && Enabled(s, Create(row))
    ensures Inv(Next(c, s, Create(row)))
  {
    hide IsKey, NamedId, Carries, ActionKey, HasAction, LedgerRuns.UniqueKeys, ReceiptsOk, LostOk;
    OthersSameKeeps(s, Next(c, s, Create(row)), {row.id});
  }

  lemma ApproveKeepsInv(c: Crypto, s: State, id: string, byUser: string, note: Option<string>, now: int)
    requires Inv(s) && Enabled(s, Approve(id, byUser, note, now))
    ensures Inv(Next(c, s, Approve(id, byUser, note, now)))
  {
    hide IsKey, NamedId, Carries, ActionKey, HasAction, LedgerRuns.UniqueKeys, ReceiptsOk, LostOk;
    OthersSameKeeps(s, Next(c, s, Approve(id, byUser, note, now)), {id});
  }

  lemma DenyKeepsInv(c: Crypto, s: State, id: string, byUser: string, note: Option<string>, now: int)
    requires Inv(s) && Enabled(s, Deny(id, byUser, note, now))
    ensures Inv(Next(c, s, Deny(id, byUser, note, now)))
  {
    hide IsKey, NamedId, Carries, ActionKey, HasAction, LedgerRuns.UniqueKeys, ReceiptsOk, LostOk;
    var t := Next(c, s, Deny(id, byUser, note, now));
    PendingIsClean(s, id);
    OthersSameKeeps(s, t, {id});
    assert t.inFlight[|s.inFlight|].row.id == id;
    assert DebtOk(t, t.inFlight[|s.inFlight|]);
  }

  /** What expiring does to the state, request by request and debt by debt. */
  ghost predicate Expires(s: State, t: State, now: int, listed: seq<string>) {
    var n := |s.inFlight|;
    && t == s.(rows := t.rows, inFlight := t.inFlight)
    && (forall id :: id in t.rows <==> id in s.rows)
    && (forall id :: id in s.rows && id !in listed ==> t.rows[id] == s.rows[id])
    && (forall id :: id in listed ==>
          id in s.rows && s.rows[id].status == Pending && t.rows[id] == ExpiredRow(s.rows[id], now))
    && |t.inFlight| == n + |listed| && t.inFlight[..n] == s.inFlight
    && (forall i :: 0 <= i < |listed| ==>
          t.inFlight[n + i] == Debt(t.rows[listed[i]], EXPIRED, "approval expired"))
    && (forall i, j :: 0 <= i < j < |listed| ==> listed[i] != listed[j])
  }

  lemma ExpireExpires(c: Crypto, s: State, now: int, listed: seq<string>)
    requires Enabled(s, Expire(now, listed))
    ensures Expires(s, Next(c, s, Expire(now, listed)), now, listed)
  {
    hide ExpiredRow;
    var t := Next(c, s, Expire(now, listed));
    assert forall i :: 0 <= i < |listed| ==> listed[i] in listed;
  }

  lemma ExpiresDebt(s: State, t: State, now: int, listed: seq<string>, k: nat)
    requires Inv(s) && Expires(s, t, now, listed) && |s.inFlight| <= k < |t.inFlight|
    ensures t.inFlight[k].row.id == listed[k - |s.inFlight|]
    ensures DebtOk(t, t.inFlight[k])
    ensures forall j :: 0 <= j < |s.inFlight| ==> s.inFlight[j].row.id != t.inFlight[k].row.id
  {
    hide IsKey, NamedId, Carries, ActionKey, HasAction, LedgerRuns.UniqueKeys, ReceiptsOk, LostOk, DebtsOk, Settled;
    var id := listed[k - |s.inFlight|];
    assert id in listed;
    assert s.rows[id].id == id;
    PendingIsClean(s, id);
    assert t.inFlight[|s.inFlight| + (k - |s.inFlight|)] == Debt(t.rows[id], EXPIRED, "approval expired");
  }

  lemma ExpiresDistinct(s: State, t: State, now: int, listed: seq<string>)
    requires Inv(s) && Expires(s, t, now, listed)
    ensures DebtsDistinct(t)
  {
    hide Inv, Expires, DebtOk;
    ExpiresParts(s, t, now, listed);
    var n := |s.inFlight|;
    forall j, k | 0 <= j < k < |t.inFlight| ensures t.inFlight[j].row.id != t.inFlight[k].row.id {
      if k < n {
        assert t.inFlight[j] == s.inFlight[j] && t.inFlight[k] == s.inFlight[k];
      } else {
        ExpiresDebt(s, t, now, listed, k);
        if j < n { assert t.inFlight[j] == s.inFlight[j]; } else { ExpiresDebt(s, t, now, listed, j); }
      }
    }
  }

  lemma ExpiresParts(s: State, t: State, now: int, listed: seq<string>)
    requires Inv(s) && Expires(s, t, now, listed)
    ensures DebtsDistinct(s) && |t.inFlight| == |s.inFlight| + |listed| && t.inFlight[..|s.inFlight|] == s.inFlight
    ensures forall i, j :: 0 <= i < j < |listed| ==> listed[i] != listed[j]
    ensures OthersSame(s, t, set id | id in listed)
    ensures forall id :: id in t.rows <==> id in s.rows
    ensures LedgerRuns.UniqueKeys(t.ledger.rows)
  {
    hide RowsOk, DebtsOk, ReceiptsOk, LostOk, LedgerRuns.UniqueKeys, ExpiredRow;
  }

  lemma ExpiresSettled(s: State, t: State, now: int, listed: seq<string>, id: string)
    requires Inv(s) && Expires(s, t, now, listed) && id in listed
    ensures t.rows[id].id == id && Settled(t, id)
  {
    hide IsKey, NamedId, Carries, ActionKey, HasAction, LedgerRuns.UniqueKeys, ReceiptsOk, LostOk, DebtsOk;
    var i :| 0 <= i < |listed| && listed[i] == id;
    assert t.inFlight[|s.inFlight| + i].row == t.rows[id];
  }

  lemma ExpireKeepsInv(c: Crypto, s: State, now: int, listed: seq<string>)
    requires Inv(s) && Enabled(s, Expire(now, listed))
    ensures Inv(Next(c, s, Expire(now, listed)))
  {
    hide Next, Enabled, Expires, OthersSame, Settled, DebtOk, LostOk, ReceiptsOk, LedgerRuns.UniqueKeys;
    var t := Next(c, s, Expire(now, listed));
    ExpireExpires(c, s, now, listed);
    ExpiresParts(s, t, now, listed);
    OthersSameKeeps(s, t, set id | id in listed);
    ExpiresDistinct(s, t, now, listed);
    forall id | id in t.rows ensures t.rows[id].id == id && Settled(t, id) {
      if id in listed { ExpiresSettled(s, t, now, listed, id); }
    }
    forall k | 0 <= k < |t.inFlight| ensures DebtOk(t, t.inFlight[k]) {
      if k < |s.inFlight| { assert t.inFlight[k] == s.inFlight[k]; } else { ExpiresDebt(s, t, now, listed, k); }
    }
  }

  // Appends

  lemma OtherInsertKeepsInv(c: Crypto, s: State, p: ReceiptInsert, at: int)
    requires Inv(s) && Enabled(s, OtherInsert(p, at))
    ensures Inv(Next(c, s, OtherInsert(p, at)))
  {
    hide NamedId, Carries, ActionKey, HasAction, IsKey, LedgerRuns.UniqueKeys, Append, HasId;
    var t := Next(c, s, OtherInsert(p, at));
    AppendedRow(c, s.ledger, p, at);
    if t.ledger.rows != s.ledger.rows {
      var r := NewRow(c, s.ledger.rows, p, at);
      LedgerRuns.KeysSnoc(s.ledger.rows, r);
      OtherRowKeeps(s, t, r);
    } else {
      SameLedgerKeeps(s, t);
    }
  }

  lemma SameLedgerKeeps(s: State, t: State)
    requires Inv(s) && t == s.(ledger := t.ledger) && t.ledger.rows == s.ledger.rows
    ensures Inv(t)
  {
    hide NamedId, Carries, ActionKey, HasAction, IsKey, LedgerRuns.UniqueKeys;
    assert forall id :: id in s.rows && Owes(s, id) ==> Owes(t, id);
    assert forall id :: id in s.rows && Settled(s, id) ==> Settled(t, id);
    assert forall r :: Explained(s, r, DENY) ==> Explained(t, r, DENY);
    assert forall r :: Explained(s, r, EXPIRED) ==> Explained(t, r, EXPIRED);
    assert forall d :: DebtOk(s, d) ==> DebtOk(t, d);
  }

  lemma OtherRowKeeps(s: State, t: State, r: Receipt)
    requires Inv(s) && t == s.(ledger := t.ledger) && t.ledger.rows == s.ledger.rows + [r]
    requires !Reserved(r.actionId) && LedgerRuns.UniqueKeys(t.ledger.rows)
    ensures Inv(t)
  {
    hide NamedId, Carries, ActionKey, HasAction, IsKey, LedgerRuns.UniqueKeys;
    forall q | q in t.ledger.rows ensures Explained(t, q, DENY) && Explained(t, q, EXPIRED) {
      if q in s.ledger.rows { assert Explained(s, q, DENY) && Explained(s, q, EXPIRED); }
    }
    forall k | 0 <= k < |t.inFlight| ensures DebtOk(t, t.inFlight[k]) {
      var d := s.inFlight[k];
      assert DebtOk(s, d);
      KeyNames(d.row.id, d.decision);
      HasActionSnoc(s.ledger.rows, r, ActionKey(d.row.id, d.decision));
    }
    forall id | id in t.rows ensures Settled(t, id) {
      assert Settled(s, id) && Owes(s, id) == Owes(t, id);
      var decision := DecisionOf(s.rows[id].status);
      if decision.Some? { HasActionSnoc(s.ledger.rows, r, ActionKey(id, decision.value)); }
    }
  }

  /** Paying or losing one debt leaves the others owed. */
  lemma OwesWithout(s: State, t: State, k: nat, id: string)
    requires k < |s.inFlight| && t.inFlight == Without(s.inFlight, k) && s.inFlight[k].row.id != id
    ensures Owes(s, id) ==> Owes(t, id)
  {
    if Owes(s, id) {
      var j :| 0 <= j < |s.inFlight| && s.inFlight[j].row.id == id;
      assert t.inFlight[if j < k then j else j - 1] == s.inFlight[j];
    }
  }

  lemma WithoutLength<T>(s: seq<T>, k: nat)
    requires k < |s|
    ensures |Without(s, k)| == |s| - 1
  {
  }

  lemma WithoutMembers<T>(s: seq<T>, k: nat, i: nat)
    requires k < |s| && i < |s| - 1
    ensures i < |Without(s, k)| && Without(s, k)[i] == s[if i < k then i else i + 1]
  {
  }

  lemma DistinctWithout(s: State, t: State, k: nat)
    requires k < |s.inFlight| && t.inFlight == Without(s.inFlight, k) && DebtsDistinct(s)
    ensures DebtsDistinct(t)
    ensures forall i :: 0 <= i < |t.inFlight| ==>
      t.inFlight[i].row.id != s.inFlight[k].row.id && t.inFlight[i] in s.inFlight
  {
    hide Without;
    WithoutLength(s.inFlight, k);
    forall i | 0 <= i < |t.inFlight| ensures t.inFlight[i] == s.inFlight[if i < k then i else i + 1] {
      WithoutMembers(s.inFlight, k, i);
    }
  }

  lemma DieKeepsInv(c: Crypto, s: State, k: nat)
    requires Inv(s) && Enabled(s, Die(k))
    ensures Inv(Next(c, s, Die(k)))
  {
    hide NamedId, Carries, ActionKey, HasAction, IsKey, LedgerRuns.UniqueKeys, Without;
    var t := Next(c, s, Die(k));
    var gone := s.inFlight[k];
    assert DebtOk(s, gone);
    DistinctWithout(s, t, k);
    forall i | 0 <= i < |t.inFlight| ensures DebtOk(t, t.inFlight[i]) {
      assert DebtOk(s, t.inFlight[i]);
    }
    forall r | r in t.ledger.rows ensures Explained(t, r, DENY) && Explained(t, r, EXPIRED) {
      assert Explained(s, r, DENY) && Explained(s, r, EXPIRED);
      ReceiptNotNamed(s, r, gone, DENY);
      ReceiptNotNamed(s, r, gone, EXPIRED);
    }
    forall id | id in t.rows ensures Settled(t, id) {
      assert Settled(s, id);
      if id != gone.row.id { OwesWithout(s, t, k, id); }
    }
  }

  lemma ReceiptNotNamed(s: State, r: Receipt, d: Debt, decision: string)
    requires r in s.ledger.rows && Explained(s, r, decision) && DebtOk(s, d)
    ensures IsKey(r.actionId, decision) ==> NamedId(r.actionId, decision) != d.row.id
  {
    hide IsKey, NamedId, ActionKey, Carries;
    if IsKey(r.actionId, decision) { KeyOfName(r.actionId, decision); }
  }

  lemma PayKeepsInv(c: Crypto, s: State, k: nat, receiptId: string, at: int)
    requires Inv(s) && Enabled(s, Pay(k, receiptId, at))
    ensures Inv(Next(c, s, Pay(k, receiptId, at)))
  {
    hide NamedId, Carries, ActionKey, HasAction, IsKey, LedgerRuns.UniqueKeys, Without, Append, HasId;
    var t := Next(c, s, Pay(k, receiptId, at));
    var paid := s.inFlight[k];
    assert DebtOk(s, paid);
    var p := ResolutionReceipt(paid, receiptId);
    var r := NewRow(c, s.ledger.rows, p, at);
    AppendedRow(c, s.ledger, p, at);
    assert Carries(r, paid.row, paid.decision) by { PaidCarries(c, s, paid, receiptId, at); }
    LedgerRuns.KeysSnoc(s.ledger.rows, r);
    DistinctWithout(s, t, k);
    PayKeepsDebts(s, t, r, paid);
    PayKeepsReceipts(s, t, r, paid);
    forall id | id in t.rows ensures Settled(t, id) {
      assert Settled(s, id);
      var decision := DecisionOf(s.rows[id].status);
      if decision.Some? { HasActionSnoc(s.ledger.rows, r, ActionKey(id, decision.value)); }
      if id != paid.row.id { OwesWithout(s, t, k, id); }
    }
  }

  lemma PaidCarries(c: Crypto, s: State, d: Debt, receiptId: string, at: int)
    requires d.reason == ReasonOf(d.row, d.decision)
    ensures Carries(NewRow(c, s.ledger.rows, ResolutionReceipt(d, receiptId), at), d.row, d.decision)
  {
    hide NewRow;
    AppendedRow(c, s.ledger, ResolutionReceipt(d, receiptId), at);
  }

  lemma PayKeepsDebts(s: State, t: State, r: Receipt, paid: Debt)
    requires Inv(s) && DebtOk(s, paid)
    requires t.rows == s.rows && t.lost == s.lost && t.ledger.rows == s.ledger.rows + [r]
    requires r.actionId == ActionKey(paid.row.id, paid.decision)
    requires forall i :: 0 <= i < |t.inFlight| ==> t.inFlight[i].row.id != paid.row.id && t.inFlight[i] in s.inFlight
    ensures DebtsOk(t)
  {
    hide NamedId, Carries, ActionKey, HasAction, IsKey, LedgerRuns.UniqueKeys, RowsOk, ReceiptsOk, LostOk;
    forall i | 0 <= i < |t.inFlight| ensures DebtOk(t, t.inFlight[i]) {
      var d := t.inFlight[i];
      assert DebtOk(s, d);
      SameKeySameRequest(d.row.id, d.decision, paid.row.id, paid.decision);
      HasActionSnoc(s.ledger.rows, r, ActionKey(d.row.id, d.decision));
    }
  }

  lemma SameKeySameRequest(id: string, decision: string, id': string, decision': string)
    requires decision in {DENY, EXPIRED} && decision' in {DENY, EXPIRED}
    ensures ActionKey(id, decision) == ActionKey(id', decision') ==> id == id' && decision == decision'
  {
    hide ActionKey, IsKey, NamedId;
    KeysDiffer(id, id');
    KeysDiffer(id', id);
    KeyNames(id, decision);
    KeyNames(id', decision');
  }

  lemma PayKeepsReceipts(s: State, t: State, r: Receipt, paid: Debt)
    requires Inv(s) && DebtOk(s, paid)
    requires t.rows == s.rows && t.lost == s.lost && t.ledger.rows == s.ledger.rows + [r]
    requires r.actionId == ActionKey(paid.row.id, paid.decision) && Carries(r, paid.row, paid.decision)
    ensures ReceiptsOk(t)
  {
    hide NamedId, Carries, ActionKey, HasAction, IsKey, LedgerRuns.UniqueKeys, RowsOk, LostOk;
    forall q | q in t.ledger.rows ensures Explained(t, q, DENY) && Explained(t, q, EXPIRED) {
      if q in s.ledger.rows {
        assert Explained(s, q, DENY) && Explained(s, q, EXPIRED);
      } else {
        PaidExplained(t, r, paid, DENY);
        PaidExplained(t, r, paid, EXPIRED);
      }
    }
  }

  lemma PaidExplained(t: State, r: Receipt, paid: Debt, decision: string)
    requires paid.row.id in t.rows && t.rows[paid.row.id] == paid.row && paid.row.id !in t.lost
    requires DecisionOf(paid.row.status) == Some(paid.decision) && decision in {DENY, EXPIRED}
    requires r.actionId == ActionKey(paid.row.id, paid.decision) && Carries(r, paid.row, paid.decision)
    ensures Explained(t, r, decision)
  {
    hide NamedId, Carries, ActionKey, IsKey;
    if IsKey(r.actionId, decision) {
      KeyOfName(r.actionId, decision);
      SameKeySameRequest(NamedId(r.actionId, decision), decision, paid.row.id, paid.decision);
    }
  }

  lemma StepKeepsInv(c: Crypto, s: State, step: Step)
    requires Inv(s)
    ensures Inv(Do(c, s, step))
  {
    hide Inv, Enabled, Next;
    if Enabled(s, step) {
      match step
      case Create(row) => CreateKeepsInv(c, s, row);
      case Approve(id, byUser, note, now) => ApproveKeepsInv(c, s, id, byUser, note, now);
      case Deny(id, byUser, note, now) => DenyKeepsInv(c, s, id, byUser, note, now);
      case Expire(now, listed) => ExpireKeepsInv(c, s, now, listed);
      case Pay(k, receiptId, at) => PayKeepsInv(c, s, k, receiptId, at);
      case Die(k) => DieKeepsInv(c, s, k);
      case OtherInsert(insert, at) => OtherInsertKeepsInv(c, s, insert, at);
    }
  }

  lemma {:induction false} EveryRunKeepsInv(c: Crypto, steps: seq<Step>)
    ensures Inv(Run(c, START, steps))
  {
    hide Do, Inv;
    if steps == [] {
      StartOk();
    } else {
      EveryRunKeepsInv(c, steps[..|steps| - 1]);
      StepKeepsInv(c, Run(c, START, steps[..|steps| - 1]), steps[|steps| - 1]);
    }
  }

  lemma StartOk()
    ensures Inv(START)
  {
  }

  /**
   * Whenever no call is in flight, a request has a denial receipt exactly when it was denied, and an expiry
   * receipt exactly when it expired, except where the call died between its two transactions. Approved and
   * pending requests have neither.
   */
  lemma {:induction false} ReceiptExactlyWhenResolved(c: Crypto, steps: seq<Step>, id: string)
    requires Run(c, START, steps).inFlight == [] && id in Run(c, START, steps).rows
    ensures var s := Run(c, START, steps);
      && (HasAction(s.ledger.rows, ActionKey(id, DENY)) <==> s.rows[id].status == Denied && id !in s.lost)
      && (HasAction(s.ledger.rows, ActionKey(id, EXPIRED)) <==> s.rows[id].status == Expired && id !in s.lost)
  {
    hide Run, IsKey, NamedId, ActionKey, Carries, LedgerRuns.UniqueKeys;
    EveryRunKeepsInv(c, steps);
    var s := Run(c, START, steps);
    assert Settled(s, id) && !Owes(s, id);
    KeyNames(id, DENY);
    KeyNames(id, EXPIRED);
    assert forall r :: r in s.ledger.rows ==> Explained(s, r, DENY) && Explained(s, r, EXPIRED);
  }

  /** At every moment each resolution receipt belongs to one request, and no request has two. */
  lemma {:induction false} ReceiptNamesOneRequest(c: Crypto, steps: seq<Step>, i: nat, decision: string)
    requires i < |Run(c, START, steps).ledger.rows| && decision in {DENY, EXPIRED}
    requires IsKey(Run(c, START, steps).ledger.rows[i].actionId, decision)
    ensures var s := Run(c, START, steps); var r := s.ledger.rows[i]; var id := NamedId(r.actionId, decision);
      && id in s.rows && DecisionOf(s.rows[id].status) == Some(decision) && Carries(r, s.rows[id], decision)
      && forall j :: 0 <= j < |s.ledger.rows| && j != i ==>
           s.ledger.rows[j].actionId != ActionKey(id, DENY) && s.ledger.rows[j].actionId != ActionKey(id, EXPIRED)
  {
    hide Run, IsKey, NamedId, ActionKey, Carries;
    EveryRunKeepsInv(c, steps);
    var s := Run(c, START, steps);
    var r := s.ledger.rows[i];
    var id := NamedId(r.actionId, decision);
    assert Explained(s, r, DENY) && Explained(s, r, EXPIRED);
    KeyOfName(r.actionId, decision);
    forall j | 0 <= j < |s.ledger.rows| && j != i
      ensures s.ledger.rows[j].actionId != ActionKey(id, DENY) && s.ledger.rows[j].actionId != ActionKey(id, EXPIRED)
    {
      assert s.ledger.rows[j].actionId != r.actionId;
      OnlyItsOwnDecision(s, j, id);
    }
  }

  lemma OnlyItsOwnDecision(s: State, j: nat, id: string)
    requires Inv(s) && j < |s.ledger.rows| && id in s.rows
    ensures s.ledger.rows[j].actionId == ActionKey(id, DENY) ==> s.rows[id].status == Denied
    ensures s.ledger.rows[j].actionId == ActionKey(id, EXPIRED) ==> s.rows[id].status == Expired
  {
    hide IsKey, NamedId, ActionKey, Carries, LedgerRuns.UniqueKeys, RowsOk, DebtsOk, DebtsDistinct, LostOk;
    KeyNames(id, DENY);
    KeyNames(id, EXPIRED);
    var r := s.ledger.rows[j];
    assert r in s.ledger.rows;
    assert Explained(s, r, DENY) && Explained(s, r, EXPIRED);
  }

  /** However requests are resolved, the ledger stays one whose every receipt verifies. */
  lemma {:induction false} LedgerStaysWellFormed(c: Crypto, steps: seq<Step>)
    requires SignsAndVerifies(c)
    ensures LedgerRuns.WellFormed(c, Run(c, START, steps).ledger)
  {
    hide SignsAndVerifies, LedgerRuns.WellFormed, Do;
    if steps == [] {
      LedgerRuns.RunIsWellFormed(c, []);
      assert LedgerRuns.Run(c, []) == START.ledger;
    } else {
      LedgerStaysWellFormed(c, steps[..|steps| - 1]);
      StepKeepsWellFormed(c, Run(c, START, steps[..|steps| - 1]), steps[|steps| - 1]);
    }
  }

  lemma StepKeepsWellFormed(c: Crypto, s: State, step: Step)
    requires SignsAndVerifies(c) && LedgerRuns.WellFormed(c, s.ledger)
    ensures LedgerRuns.WellFormed(c, Do(c, s, step).ledger)
  {
    hide SignsAndVerifies, LedgerRuns.WellFormed, Append;
    if Enabled(s, step) {
      match step
      case Pay(k, receiptId, at) =>
        LedgerRuns.AppendKeepsWellFormed(c, s.ledger, ResolutionReceipt(s.inFlight[k], receiptId), at);
      case OtherInsert(insert, at) => LedgerRuns.AppendKeepsWellFormed(c, s.ledger, insert, at);
      case _ =>
    }
  }

  /** Requests are lost only to calls that die. */
  lemma {:induction false} NothingLostWithoutDeath(c: Crypto, steps: seq<Step>)
    requires forall i :: 0 <= i < |steps| ==> !steps[i].Die?
    ensures Run(c, START, steps).lost == {}
  {
    hide Append, Enabled;
    if steps == [] {
    } else {
      NothingLostWithoutDeath(c, steps[..|steps| - 1]);
    }
  }

  lemma {:induction false} RunConcat(c: Crypto, before: seq<Step>, after: seq<Step>)
    ensures Run(c, START, before + after) == Run(c, Run(c, START, before), after)
    decreases |after|
  {
    hide Do;
    if after == [] {
      assert before + after == before;
    } else {
      assert (before + after)[..|before + after| - 1] == before + after[..|after| - 1];
      RunConcat(c, before, after[..|after| - 1]);
    }
  }

  lemma {:induction false} LostStaysLost(c: Crypto, s: State, steps: seq<Step>, id: string)
    requires id in s.lost
    ensures id in Run(c, s, steps).lost
    decreases |steps|
  {
    hide Append, Enabled;
    if steps == [] {
    } else {
      LostStaysLost(c, s, steps[..|steps| - 1], id);
    }
  }

  /** A request whose call died never gets its receipt, whatever happens next and whatever is in flight. */
  lemma {:induction false} LostForGood(c: Crypto, before: seq<Step>, after: seq<Step>, id: string)
    requires id in Run(c, START, before).lost
    ensures var s := Run(c, START, before + after);
      && id in s.lost && id in s.rows && DecisionOf(s.rows[id].status).Some?
      && !HasAction(s.ledger.rows, ActionKey(id, DENY)) && !HasAction(s.ledger.rows, ActionKey(id, EXPIRED))
  {
    hide Run, IsKey, NamedId, ActionKey, Carries, LedgerRuns.UniqueKeys, RowsOk, DebtsOk, DebtsDistinct;
    RunConcat(c, before, after);
    LostStaysLost(c, Run(c, START, before), after, id);
    EveryRunKeepsInv(c, before + after);
    var s := Run(c, START, before + after);
    KeyNames(id, DENY);
    KeyNames(id, EXPIRED);
    assert forall r :: r in s.ledger.rows ==> Explained(s, r, DENY) && Explained(s, r, EXPIRED);
  }

  /** A run that leaves a denied request without a receipt for good. */
  lemma {:induction false} DyingCallLosesReceipt(c: Crypto, row: Approval, byUser: string, note: Option<string>,
      now: int,
                                                 after: seq<Step>)
    requires row.status == Pending && byUser != ""
    ensures var s := Run(c, START, [Create(row), Deny(row.id, byUser, note, now), Die(0)] + after);
      && row.id in s.rows && s.rows[row.id] == Resolved(row, Denied, byUser, note, now)
      && !HasAction(s.ledger.rows, ActionKey(row.id, DENY))
  {
    var steps := [Create(row), Deny(row.id, byUser, note, now), Die(0)];
    ThreeSteps(c, Create(row), Deny(row.id, byUser, note, now), Die(0));
    var t := Run(c, START, steps);
    assert t.lost == {row.id} && t.rows == map[row.id := Resolved(row, Denied, byUser, note, now)];
    hide Run, HasAction, ActionKey;
    RunConcat(c, steps, after);
    ResolutionIsFinal(c, t, after, row.id);
    LostForGood(c, steps, after, row.id);
  }

  lemma ThreeSteps(c: Crypto, a: Step, b: Step, d: Step)
    ensures Run(c, START, [a, b, d]) == Do(c, Do(c, Do(c, START, a), b), d)
  {
    hide Do;
    assert [a, b, d][..2] == [a, b] && [a, b][..1] == [a] && [a][..0] == [];
    assert Run(c, START, [a]) == Do(c, START, a);
    assert Run(c, START, [a, b]) == Do(c, Do(c, START, a), b);
  }

  // ---------------------------------------------------------------------------
  // The calls of the source, each run on its own
  // ---------------------------------------------------------------------------

  datatype Result = Ok(row: Approval) | Err(error: Error)

  ghost function Payments(receiptIds: seq<string>, ats: seq<int>): seq<Step>
    requires |ats| == |receiptIds|
  {
    seq(|receiptIds|, i requires 0 <= i < |receiptIds| => Pay(0, receiptIds[i], ats[i]))
  }

  ghost predicate AllFresh(rows: seq<Receipt>, receiptIds: seq<string>) {
    && (forall i :: 0 <= i < |receiptIds| ==> !HasId(rows, receiptIds[i]))
    && (forall i, j :: 0 <= i < j < |receiptIds| ==> receiptIds[i] != receiptIds[j])
  }

  class ApprovalDesk {
    var rows: map<string, Approval>
    const receipts: ReceiptLedger

    ghost function View(): State
      reads this, receipts, receipts.registry
    {
      State(rows, receipts.View(), [], {})
    }

    constructor (crypto: Crypto)
      ensures fresh(receipts) && fresh(receipts.registry) && receipts.crypto == crypto && View() == START
    {
      rows := map[];
      receipts := new ReceiptLedger(crypto);
    }

    method ResolveRequest(id: string, status: Status, byUser: string, note: Option<string>, now: int)
      returns (r: Result)
      modifies this`rows
      ensures r.Ok? <==> Resolvable(old(rows), id, byUser)
      ensures r.Ok? ==> rows == old(rows)[id := Resolved(old(rows)[id], status, byUser, note, now)] && r.row == rows[id]
      ensures r.Err? ==> rows == old(rows) && (byUser == "" <==> r.error == UserRequired)
      ensures r.Err? && byUser != "" && id in rows ==> r.error == AlreadyResolved(rows[id].status)
      ensures r.Err? && byUser != "" && id !in rows ==> r.error == NotFound
    {
      if byUser == "" {
        return Err(UserRequired);
      }
      if id !in rows {
        return Err(NotFound);
      }
      var row := rows[id];
      if row.status != Pending {
        return Err(AlreadyResolved(row.status));
      }
      rows := rows[id := row.(status := status, resolvedAt := Some(now), resolvedBy := Some(byUser),
                              resolutionNote := note)];
      return Ok(rows[id]);
    }

    method ApproveRequest(id: string, byUser: string, note: Option<string>, now: int) returns (r: Result)
      modifies this`rows
      ensures View() == Do(receipts.crypto, old(View()), Approve(id, byUser, note, now))
      ensures r.Ok? <==> Resolvable(old(rows), id, byUser)
    {
      r := ResolveRequest(id, Approved, byUser, note, now);
    }

    method ChainResolutionReceipt(row: Approval, decision: string, reason: string, receiptId: string, at: int)
      modifies receipts, receipts.registry
      ensures receipts.View()
           == Append(receipts.crypto, old(receipts.View()),
                     ResolutionReceipt(Debt(row, decision, reason), receiptId), at).0
    {
      hide Append;
      var _ := receipts.ChainInsertReceipt(
        ReceiptInsert(receiptId, "approval:" + row.id + ":" + decision, row.agentName, row.intent, row.targetEntityId,
                      None, decision, reason, row.policyId, row.passportId, row.guidance, None, "ed25519", "",
                      false, None),
        at);
    }

    /** Denying is the protocol's denial followed by the payment of its debt. */
    method DenyRequest(id: string, byUser: string, note: Option<string>, now: int, receiptId: string, at: int)
      returns (r: Result)
      requires !HasId(receipts.rows, receiptId)
      modifies this`rows, receipts, receipts.registry
      ensures View() == Do(receipts.crypto, Do(receipts.crypto, old(View()), Deny(id, byUser, note, now)),
                           Pay(0, receiptId, at))
      ensures r.Ok? <==> Resolvable(old(rows), id, byUser)
    {
      hide Append, ResolutionReceipt;
      r := ResolveRequest(id, Denied, byUser, note, now);
      if r.Err? {
        return r;
      }
      var reason := if note.Some? && note.value != "" then note.value else "approval denied";
      ChainResolutionReceipt(r.row, "deny", reason, receiptId, at);
    }

    /** Expiring is the protocol's expiry followed by one payment for each request it expired. */
    method ExpireOldRequests(now: int, listed: seq<string>, receiptIds: seq<string>, ats: seq<int>)
      returns (expired: seq<Approval>)
      requires Lists(listed, rows, now)
      requires |receiptIds| == |ats| == |listed| && AllFresh(receipts.rows, receiptIds)
      modifies this`rows, receipts, receipts.registry
      ensures View() == Run(receipts.crypto, Do(receipts.crypto, old(View()), Expire(now, listed)),
                            Payments(receiptIds, ats))
      ensures |expired| == |listed|
      ensures forall i :: 0 <= i < |listed| ==> listed[i] in rows && expired[i] == rows[listed[i]]
    {
      ghost var before := View();
      ghost var debts := ExpiryDebts(rows, listed, now);
      ghost var mid := Do(receipts.crypto, before, Expire(now, listed));
      expired := MarkExpired(now, listed);
      hide Run, ExpiredRow;
      assert mid == State(rows, before.ledger, debts, {});
      assert forall i :: 0 <= i < |expired| ==> debts[i] == Debt(expired[i], EXPIRED, "approval expired");
      PayAll(mid, debts, expired, receiptIds, ats);
    }

    /** One receipt after the other for the requests that have just expired. */
    method PayAll(ghost mid: State, ghost debts: seq<Debt>, expired: seq<Approval>, receiptIds: seq<string>,
        ats: seq<int>)
      requires mid == State(rows, receipts.View(), debts, {})
      requires |debts| == |expired| == |receiptIds| == |ats| && AllFresh(receipts.rows, receiptIds)
      requires forall i :: 0 <= i < |expired| ==> debts[i] == Debt(expired[i], EXPIRED, "approval expired")
      modifies receipts, receipts.registry
      ensures State(rows, receipts.View(), [], {}) == Run(receipts.crypto, mid, Payments(receiptIds, ats))
    {
      hide Append, ResolutionReceipt, HasId, Run, Do, AllFresh;
      ghost var steps := Payments(receiptIds, ats);
      NoSteps(receipts.crypto, mid, steps);
      assert debts[0..] == debts && receiptIds[0..] == receiptIds;
      for i := 0 to |expired|
        invariant State(rows, receipts.View(), debts[i..], {}) == Run(receipts.crypto, mid, steps[..i])
        invariant AllFresh(receipts.rows, receiptIds[i..])
        invariant rows == mid.rows
      {
        ghost var before := State(rows, receipts.View(), debts[i..], {});
        ChainResolutionReceipt(expired[i], "expired", "approval expired", receiptIds[i], ats[i]);
        PayFirst(receipts.crypto, before, receiptIds[i..], ats[i]);
        RunSnoc(receipts.crypto, mid, steps, i);
      }
      assert steps[..|expired|] == steps;
    }

    method MarkExpired(now: int, listed: seq<string>) returns (expired: seq<Approval>)
      requires Lists(listed, rows, now)
      modifies this`rows
      ensures rows == AfterExpiry(old(rows), now)
      ensures |expired| == |listed|
      ensures forall i :: 0 <= i < |listed| ==>
        listed[i] in old(rows) && listed[i] in rows
        && expired[i] == rows[listed[i]] == ExpiredRow(old(rows)[listed[i]], now)
    {
      hide ExpiredRow, Marked, AfterExpiry;
      expired := [];
      MarkedNone(rows, listed, now);
      for i := 0 to |listed|
        invariant |expired| == i && rows == Marked(old(rows), listed[..i], now)
        invariant forall j :: 0 <= j < i ==>
          listed[j] in old(rows) && expired[j] == ExpiredRow(old(rows)[listed[j]], now)
      {
        var id := listed[i];
        MarkedNext(old(rows), listed, i, now);
        rows := rows[id := ExpiredRow(rows[id], now)];
        expired := expired + [rows[id]];
      }
      MarkedAll(old(rows), listed, now);
    }
  }

  /** The table once the listed requests have expired. */
  function Marked(rows: map<string, Approval>, ids: seq<string>, now: int): map<string, Approval> {
    map id | id in rows :: if id in ids then ExpiredRow(rows[id], now) else rows[id]
  }

  lemma MarkedNone(rows: map<string, Approval>, listed: seq<string>, now: int)
    ensures rows == Marked(rows, listed[..0], now)
  {
    hide ExpiredRow;
  }

  lemma MarkedNext(rows: map<string, Approval>, listed: seq<string>, i: nat, now: int)
    requires Lists(listed, rows, now) && i < |listed|
    ensures var was := Marked(rows, listed[..i], now); var id := listed[i];
      && id in rows && id in was && was[id] == rows[id]
      && Marked(rows, listed[..i + 1], now) == was[id := ExpiredRow(rows[id], now)]
  {
    hide ExpiredRow, Overdue;
    assert listed[i] in listed && listed[i] !in listed[..i];
    assert listed[..i + 1] == listed[..i] + [listed[i]];
  }

  lemma MarkedAll(rows: map<string, Approval>, listed: seq<string>, now: int)
    requires Lists(listed, rows, now)
    ensures Marked(rows, listed[..|listed|], now) == AfterExpiry(rows, now)
    ensures forall i :: 0 <= i < |listed| ==>
      listed[i] in rows && listed[i] in AfterExpiry(rows, now)
      && AfterExpiry(rows, now)[listed[i]] == ExpiredRow(rows[listed[i]], now)
  {
    hide ExpiredRow, Overdue;
    assert listed[..|listed|] == listed;
    assert forall i :: 0 <= i < |listed| ==> listed[i] in listed;
  }

  lemma NoSteps(c: Crypto, s: State, steps: seq<Step>)
    ensures Run(c, s, steps[..0]) == s
  {
  }

  /** Paying the first debt of a list, with the first of the fresh ids. */
  lemma PayFirst(c: Crypto, s: State, receiptIds: seq<string>, at: int)
    requires s.inFlight != [] && receiptIds != [] && AllFresh(s.ledger.rows, receiptIds)
    ensures var ledger := Append(c, s.ledger, ResolutionReceipt(s.inFlight[0], receiptIds[0]), at).0;
      && Do(c, s, Pay(0, receiptIds[0], at)) == s.(ledger := ledger, inFlight := s.inFlight[1..])
      && AllFresh(ledger.rows, receiptIds[1..])
  {
    hide Append, ResolutionReceipt, HasId;
    assert Without(s.inFlight, 0) == s.inFlight[1..];
    assert ResolutionReceipt(s.inFlight[0], receiptIds[0]).id == receiptIds[0] by {
      ReceiptHasId(s.inFlight[0], receiptIds[0]);
    }
    StillFresh(c, s.ledger, ResolutionReceipt(s.inFlight[0], receiptIds[0]), at, receiptIds);
  }

  lemma ReceiptHasId(d: Debt, receiptId: string)
    ensures ResolutionReceipt(d, receiptId).id == receiptId
  {
  }

  lemma RunSnoc(c: Crypto, s: State, steps: seq<Step>, i: nat)
    requires i < |steps|
    ensures Run(c, s, steps[..i + 1]) == Do(c, Run(c, s, steps[..i]), steps[i])
  {
    hide Do;
    assert steps[..i + 1][..i] == steps[..i];
  }

  lemma StillFresh(c: Crypto, l: Ledger, p: ReceiptInsert, at: int, receiptIds: seq<string>)
    requires receiptIds != [] && AllFresh(l.rows, receiptIds) && p.id == receiptIds[0]
    ensures AllFresh(Append(c, l, p, at).0.rows, receiptIds[1..])
  {
    hide Append, NewRow;
    AppendedRow(c, l, p, at);
  }
}

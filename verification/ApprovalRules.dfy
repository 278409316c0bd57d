/** What resolving and expiring do to a request and to the ledger, column by column. */
module ApprovalRules {
  import opened Prelude
  import opened Receipts
  import opened Approvals

  /** The columns of a request that resolving it never touches are those of `was`. */
  predicate ResolvedAs(row: Approval, was: Approval, status: Status, at: int, who: Option<string>,
                       note: Option<string>) {
    && row.status == status && row.resolvedAt == Some(at) && row.resolvedBy == who && row.resolutionNote == note
    && row == was.(status := row.status, resolvedAt := row.resolvedAt, resolvedBy := row.resolvedBy,
                   resolutionNote := row.resolutionNote)
  }

  /** A named user resolves a pending request; every other call leaves everything as it was. */
  lemma ResolvingExactly(c: Crypto, s: State, id: string, byUser: string, note: Option<string>, now: int)
    ensures var approved := Do(c, s, Approve(id, byUser, note, now));
      var denied := Do(c, s, Deny(id, byUser, note, now));
      if byUser != "" && id in s.rows && s.rows[id].status == Pending then
        && id in approved.rows && ResolvedAs(approved.rows[id], s.rows[id], Approved, now, Some(byUser), note)
        && approved == s.(rows := s.rows[id := approved.rows[id]])
        && id in denied.rows && ResolvedAs(denied.rows[id], s.rows[id], Denied, now, Some(byUser), note)
        && denied == s.(rows := s.rows[id := denied.rows[id]], inFlight := denied.inFlight)
        && |denied.inFlight| == |s.inFlight| + 1 && denied.inFlight[..|s.inFlight|] == s.inFlight
        && denied.inFlight[|s.inFlight|].row == denied.rows[id]
      else approved == s && denied == s
  {
  }

  /** The requests that are pending when their time is up, and no others, expire. */
  lemma ExpiringExactly(c: Crypto, s: State, now: int, listed: seq<string>)
    requires Enabled(s, Expire(now, listed))
    ensures var t := Next(c, s, Expire(now, listed));
      && t == s.(rows := t.rows, inFlight := t.inFlight) && t.rows.Keys == s.rows.Keys
      && forall id :: id in s.rows ==>
           if s.rows[id].status == Pending && s.rows[id].expiresAt <= now then
             ResolvedAs(t.rows[id], s.rows[id], Expired, now, s.rows[id].resolvedBy, Some("approval expired"))
           else t.rows[id] == s.rows[id]
  {
    hide ExpiryDebts;
  }

  /** The list handed to the expiry is of those requests, each once. */
  lemma ListsExactly(listed: seq<string>, rows: map<string, Approval>, now: int)
    requires Lists(listed, rows, now)
    ensures forall id :: id in listed <==> id in rows && rows[id].status == Pending && rows[id].expiresAt <= now
    ensures forall i, j :: 0 <= i < j < |listed| ==> listed[i] != listed[j]
  {
  }

  /** Every request that expires gets one receipt to pay, and nothing else does. */
  lemma ExpiryOwesExactly(c: Crypto, s: State, now: int, listed: seq<string>)
    requires Enabled(s, Expire(now, listed))
    ensures var t := Next(c, s, Expire(now, listed)); var n := |s.inFlight|;
      && |t.inFlight| == n + |listed| && t.inFlight[..n] == s.inFlight
      && forall i :: 0 <= i < |listed| ==>
           && listed[i] in s.rows && listed[i] in t.rows
           && t.inFlight[n + i] == Debt(t.rows[listed[i]], "expired", "approval expired")
  {
    hide Next, Enabled, Inv;
    ExpireExpires(c, s, now, listed);
    var t := Next(c, s, Expire(now, listed));
    forall i | 0 <= i < |listed|
      ensures listed[i] in s.rows && listed[i] in t.rows
           && t.inFlight[|s.inFlight| + i] == Debt(t.rows[listed[i]], "expired", "approval expired")
    {
      assert listed[i] in listed;
    }
  }

  /** The receipt says who asked for what, under which policy and passport, how it was decided and why. */
  lemma ResolutionReceiptExactly(d: Debt, receiptId: string)
    ensures var p := ResolutionReceipt(d, receiptId);
      && p.id == receiptId && p.actionId == "approval:" + d.row.id + ":" + d.decision
      && p.agentName == d.row.agentName && p.intent == d.row.intent && p.targetEntityId == d.row.targetEntityId
      && p.policyId == d.row.policyId && p.passportId == d.row.passportId && p.guidance == d.row.guidance
      && p.decision == d.decision && p.reason == d.reason && !p.demoFlag
      && p.clusterId == None && p.suggestedAlternative == None && p.reservedState == None
  {
  }

  /** A denial that nothing interrupts adds its receipt to the ledger, with the note as its reason. */
  lemma DeniedIsRecorded(c: Crypto, s: State, id: string, byUser: string, note: Option<string>, now: int,
                         receiptId: string, at: int)
    requires Inv(s) && s.inFlight == [] && !HasId(s.ledger.rows, receiptId)
    requires byUser != "" && id in s.rows && s.rows[id].status == Pending
    ensures var t := Do(c, Do(c, s, Deny(id, byUser, note, now)), Pay(0, receiptId, at)); var n := |s.ledger.rows|;
      && t.inFlight == [] && id in t.rows && ResolvedAs(t.rows[id], s.rows[id], Denied, now, Some(byUser), note)
      && |t.ledger.rows| == n + 1 && t.ledger.rows[..n] == s.ledger.rows
      && var r := t.ledger.rows[n];
         && r.id == receiptId && r.actionId == "approval:" + id + ":deny" && r.decision == "deny"
         && r.reason == (if note == None || note == Some("") then "approval denied" else note.value)
         && r.agentName == s.rows[id].agentName && r.intent == s.rows[id].intent
         && r.targetEntityId == s.rows[id].targetEntityId && r.policyId == s.rows[id].policyId
         && r.passportId == s.rows[id].passportId && r.guidance == s.rows[id].guidance && !r.demoFlag
  {
    hide HasId, HasAction, NewRow, Append, Inv;
    var row := Resolved(s.rows[id], Denied, byUser, note, now);
    var d := Debt(row, DENY, DenialReason(note));
    var u := Do(c, s, Deny(id, byUser, note, now));
    assert u.inFlight == [d];
    assert Without([d], 0) == [];
    assert s.rows[id].id == id && !HasAction(s.ledger.rows, ActionKey(id, DENY)) by { CleanRow(s, id); }
    AppendedRow(c, s.ledger, ResolutionReceipt(d, receiptId), at);
  }

  lemma CleanRow(s: State, id: string)
    requires Inv(s) && id in s.rows && s.rows[id].status == Pending
    ensures s.rows[id].id == id && !HasAction(s.ledger.rows, ActionKey(id, DENY))
  {
    PendingIsClean(s, id);
  }
}

/** The ledger over whole runs of appends, under any clock. */
module LedgerRuns {
  import opened Prelude
  import opened Receipts
  import opened Verify
  import AgentRegistry

  /** One call: what is inserted, and what the wall clock says at that moment. */
  datatype Command = Command(insert: ReceiptInsert, now: int)

  function RunFrom(c: Crypto, l: Ledger, cmds: seq<Command>): Ledger {
    if cmds == [] then l
    else
      var last := cmds[|cmds| - 1];
      Append(c, RunFrom(c, l, cmds[..|cmds| - 1]), last.insert, last.now).0
  }

  function Run(c: Crypto, cmds: seq<Command>): Ledger { RunFrom(c, EMPTY, cmds) }

  function StandardChecks(c: Crypto): Checks { RowChecks(c, c.publicKey) }

  // ---------------------------------------------------------------------------
  // What every run keeps
  // ---------------------------------------------------------------------------

  ghost predicate Dated(rows: seq<Receipt>) {
    forall i, j :: 0 <= i < j < |rows| ==> rows[i].createdAt < rows[j].createdAt
  }

  ghost predicate UniqueKeys(rows: seq<Receipt>) {
    && (forall i, j :: 0 <= i < j < |rows| ==> rows[i].id != rows[j].id)
    && (forall i, j :: 0 <= i < j < |rows| ==> rows[i].actionId != rows[j].actionId)
  }

  /** Insertion order is date order, keys are unique, the chain holds, and the registry is up to date. */
  ghost predicate WellFormed(c: Crypto, l: Ledger) {
    && Dated(l.rows)
    && UniqueKeys(l.rows)
    && SoundTo(StandardChecks(c), l.rows, |l.rows|)
    && SignedTo(StandardChecks(c), l.rows, |l.rows|)
    && AgentRegistry.Matches(l.registry, AllObserved(l.rows))
  }

  lemma DatedIsOrdered(rows: seq<Receipt>)
    requires Dated(rows)
    ensures Ordered(rows) == rows
  {
    RowOrder();
    SortOfSorted(RowLe, rows);
  }

  lemma NewRowChecks(c: Crypto, rows: seq<Receipt>, p: ReceiptInsert, now: int)
    requires SignsAndVerifies(c)
    ensures StandardChecks(c).hashed(NewRow(c, rows, p, now))
    ensures Signed(StandardChecks(c), NewRow(c, rows, p, now))
  {
    NewRowSealed(c, rows, p, now);
    var r := NewRow(c, rows, p, now);
    assert VerifyReceiptSignature(c, r, c.publicKey).verified;
  }

  lemma SoundSnoc(k: Checks, rows: seq<Receipt>, r: Receipt)
    requires SoundTo(k, rows, |rows|) && SignedTo(k, rows, |rows|)
    requires k.hashed(r) && Signed(k, r)
    requires r.prevHash == if rows == [] then None else Some(rows[|rows| - 1].thisHash)
    ensures SoundTo(k, rows + [r], |rows| + 1) && SignedTo(k, rows + [r], |rows| + 1)
  {
    SoundPrefix(k, rows, [r], |rows|);
    SignedPrefix(k, rows, [r], |rows|, "");
    var all := rows + [r];
    assert all[|rows|] == r;
    assert Linked(all, |rows|);
    forall i {:trigger Linked(all, i)} | 0 <= i < |rows| + 1 ensures Linked(all, i) && k.hashed(all[i]) {
    }
    forall i | 0 <= i < |rows| + 1 ensures Signed(k, all[i]) {
      if i < |rows| { assert Signed(k, all[i]); }
    }
  }

  lemma KeysSnoc(rows: seq<Receipt>, r: Receipt)
    requires UniqueKeys(rows) && !HasId(rows, r.id) && !HasAction(rows, r.actionId)
    ensures UniqueKeys(rows + [r])
  {
    forall i | 0 <= i < |rows| ensures rows[i].id != r.id && rows[i].actionId != r.actionId {
      assert rows[i] in rows;
    }
  }

  lemma DatedSnoc(rows: seq<Receipt>, r: Receipt)
    requires Dated(rows) && forall q :: q in rows ==> q.createdAt < r.createdAt
    ensures Dated(rows + [r])
  {
    forall i | 0 <= i < |rows| ensures rows[i].createdAt < r.createdAt {
      assert rows[i] in rows;
    }
  }

  lemma WellFormedSnoc(c: Crypto, l: Ledger, r: Receipt)
    requires WellFormed(c, l)
    requires !HasId(l.rows, r.id) && !HasAction(l.rows, r.actionId)
    requires forall q :: q in l.rows ==> q.createdAt < r.createdAt
    requires StandardChecks(c).hashed(r) && Signed(StandardChecks(c), r)
    requires r.prevHash == if l.rows == [] then None else Some(l.rows[|l.rows| - 1].thisHash)
    ensures WellFormed(c, Ledger(l.rows + [r], AgentRegistry.Upserted(l.registry, Observed(r))))
  {
    hide AgentRegistry.Matches, AgentRegistry.Upserted, Dated, UniqueKeys, SoundTo, SignedTo, RowChecks;
    KeysSnoc(l.rows, r);
    DatedSnoc(l.rows, r);
    SoundSnoc(StandardChecks(c), l.rows, r);
    AgentRegistry.UpsertKeepsMatch(l.registry, AllObserved(l.rows), Observed(r));
    assert AllObserved(l.rows + [r]) == AllObserved(l.rows) + [Observed(r)];
  }

  lemma NewRowNames(c: Crypto, rows: seq<Receipt>, p: ReceiptInsert, now: int)
    ensures NewRow(c, rows, p, now).id == p.id && NewRow(c, rows, p, now).actionId == p.actionId
  {
  }

  lemma AppendKeepsWellFormed(c: Crypto, l: Ledger, p: ReceiptInsert, now: int)
    requires SignsAndVerifies(c) && WellFormed(c, l)
    ensures WellFormed(c, Append(c, l, p, now).0)
  {
    if Append(c, l, p, now).1.Inserted? {
      var r := NewRow(c, l.rows, p, now);
      NewRowNames(c, l.rows, p, now);
      FindActionFinds(l.rows, p.actionId);
      DatedIsOrdered(l.rows);
      NewRowIsLatest(c, l.rows, p, now);
      NewRowChecks(c, l.rows, p, now);
      assert r.prevHash == if l.rows == [] then None else Some(l.rows[|l.rows| - 1].thisHash) by {
        NewRowSealed(c, l.rows, p, now);
      }
      WellFormedSnoc(c, l, r);
    }
  }

  lemma {:induction false} RunIsWellFormed(c: Crypto, cmds: seq<Command>)
    requires SignsAndVerifies(c)
    ensures WellFormed(c, Run(c, cmds))
  {
    if cmds == [] {
    } else {
      RunIsWellFormed(c, cmds[..|cmds| - 1]);
      AppendKeepsWellFormed(c, Run(c, cmds[..|cmds| - 1]), cmds[|cmds| - 1].insert, cmds[|cmds| - 1].now);
    }
  }

  /** Under any clock, the ordered listing of a run is its insertion order. */
  lemma {:induction false} ListingIsInsertionOrder(c: Crypto, cmds: seq<Command>)
    requires SignsAndVerifies(c)
    ensures Ordered(Run(c, cmds).rows) == Run(c, cmds).rows && Dated(Run(c, cmds).rows)
  {
    RunIsWellFormed(c, cmds);
    DatedIsOrdered(Run(c, cmds).rows);
  }

  /** Every receipt of a run verifies; any other id is reported missing. */
  lemma {:induction false} EveryReceiptVerifies(c: Crypto, cmds: seq<Command>, id: string, v: Verdict)
    requires SignsAndVerifies(c)
    requires Judges(StandardChecks(c), Ordered(Run(c, cmds).rows), id, v)
    ensures v.Verdict? && v.verified <==> HasId(Run(c, cmds).rows, id)
    ensures v == NotFound <==> !HasId(Run(c, cmds).rows, id)
  {
    RunIsWellFormed(c, cmds);
    ListingIsInsertionOrder(c, cmds);
    SoundListingVerdicts(StandardChecks(c), Run(c, cmds).rows, id, v);
  }

  lemma SoundListingVerdicts(k: Checks, rows: seq<Receipt>, id: string, v: Verdict)
    requires SoundTo(k, rows, |rows|) && SignedTo(k, rows, |rows|) && Judges(k, rows, id, v)
    ensures v.Verdict? && v.verified <==> HasId(rows, id)
    ensures v == NotFound <==> !HasId(rows, id)
  {
    if Unnamed(rows, id, |rows|) {
      assert !HasId(rows, id);
    } else {
      var t := FirstNamed(rows, id, |rows|);
      assert rows[t] in rows;
      assert SoundTo(k, rows, t + 1) && SignedTo(k, rows, t + 1);
      assert FoundAt(k, rows, t, v);
    }
  }

  // ---------------------------------------------------------------------------
  // Earlier verdicts stand, on tampered tables too
  // ---------------------------------------------------------------------------

  lemma AppendKeepsVerdict(c: Crypto, k: Checks, l: Ledger, p: ReceiptInsert, now: int, id: string, v: Verdict)
    requires Judges(k, Ordered(l.rows), id, v) && v.Verdict?
    ensures Judges(k, Ordered(Append(c, l, p, now).0.rows), id, v)
  {
    if Append(c, l, p, now).1.Inserted? {
      NewRowIsLatest(c, l.rows, p, now);
      VerdictStands(k, Ordered(l.rows), [NewRow(c, l.rows, p, now)], id, v);
    }
  }

  /** A verdict given on any table at all is given again after any further calls. */
  lemma {:induction false} LaterCallsKeepVerdict(c: Crypto, k: Checks, l: Ledger, cmds: seq<Command>, id: string,
                                                 v: Verdict, w: Verdict)
    requires Judges(k, Ordered(l.rows), id, v) && v.Verdict?
    requires Judges(k, Ordered(RunFrom(c, l, cmds).rows), id, w)
    ensures w == v
  {
    VerdictSurvives(c, k, l, cmds, id, v);
    VerdictUnique(k, Ordered(RunFrom(c, l, cmds).rows), id, v, w);
  }

  lemma {:induction false} VerdictSurvives(c: Crypto, k: Checks, l: Ledger, cmds: seq<Command>, id: string, v: Verdict)
    requires Judges(k, Ordered(l.rows), id, v) && v.Verdict?
    ensures Judges(k, Ordered(RunFrom(c, l, cmds).rows), id, v)
    decreases |cmds|
  {
    if cmds == [] {
    } else {
      var init, last := cmds[..|cmds| - 1], cmds[|cmds| - 1];
      VerdictSurvives(c, k, l, init, id, v);
      AppendKeepsVerdict(c, k, RunFrom(c, l, init), last.insert, last.now, id, v);
    }
  }

  // ---------------------------------------------------------------------------
  // The registry is a view of the ledger
  // ---------------------------------------------------------------------------

  /** In every run the registry holds, for each agent, the summary of that agent's receipts. */
  lemma {:induction false} RegistryIsView(c: Crypto, cmds: seq<Command>)
    requires SignsAndVerifies(c)
    ensures AgentRegistry.Matches(Run(c, cmds).registry, AllObserved(Run(c, cmds).rows))
  {
    RunIsWellFormed(c, cmds);
  }

  /** The receipts filed under one agent's name, in their order in the table. */
  function ReceiptsOf(rows: seq<Receipt>, name: string): seq<Receipt> {
    if rows == [] then []
    else
      var last := rows[|rows| - 1];
      ReceiptsOf(rows[..|rows| - 1], name) + if AgentRegistry.NormalAgent(last.agentName) == name then [last] else []
  }

  function Decided(rows: seq<Receipt>, decision: string): nat {
    if rows == [] then 0
    else
      var last := rows[|rows| - 1];
      Decided(rows[..|rows| - 1], decision) + if AgentRegistry.NormalDecision(last.decision) == decision then 1 else 0
  }

  lemma {:induction false} ObservedReceipts(rows: seq<Receipt>, name: string)
    ensures AgentRegistry.OfAgent(AllObserved(rows), name) == AllObserved(ReceiptsOf(rows, name))
  {
    hide AgentRegistry.NormalAgent;
    if rows != [] {
      var init, last := rows[..|rows| - 1], rows[|rows| - 1];
      ObservedReceipts(init, name);
      assert AllObserved(rows) == AllObserved(init) + [Observed(last)];
      AgentRegistry.OfAgentSnoc(AllObserved(init), Observed(last), name);
      assert AllObserved(ReceiptsOf(init, name) + [last]) == AllObserved(ReceiptsOf(init, name)) + [Observed(last)];
    }
  }

  lemma {:induction false} ObservedDecisions(rows: seq<Receipt>, decision: string)
    ensures AgentRegistry.CountDecision(AllObserved(rows), decision) == Decided(rows, decision)
  {
    hide AgentRegistry.NormalDecision;
    if rows != [] {
      ObservedDecisions(rows[..|rows| - 1], decision);
      assert AllObserved(rows)[..|rows| - 1] == AllObserved(rows[..|rows| - 1]);
    }
  }

  lemma {:induction false} ReceiptsOfAreDated(rows: seq<Receipt>, name: string)
    requires Dated(rows)
    ensures Dated(ReceiptsOf(rows, name)) && forall r :: r in ReceiptsOf(rows, name) ==> r in rows
  {
    hide AgentRegistry.NormalAgent;
    if rows != [] {
      var init, last := rows[..|rows| - 1], rows[|rows| - 1];
      assert rows == init + [last];
      ReceiptsOfAreDated(init, name);
      var mine := ReceiptsOf(init, name);
      forall r | r in mine ensures r.createdAt < last.createdAt {
        var i :| 0 <= i < |init| && init[i] == r;
        assert rows[i] == r;
      }
      DatedSnoc(mine, last);
    }
  }

  /** The registry row that the receipts of one agent amount to. */
  ghost predicate SumsUp(row: AgentRegistry.Row, name: string, mine: seq<Receipt>)
    requires mine != []
  {
    var last := mine[|mine| - 1];
    && row.agentName == name && row.totalActions == |mine|
    && row.firstSeen == mine[0].createdAt && row.lastSeen == last.createdAt
    && row.lastIntent == last.intent && row.lastActionId == last.actionId
    && row.allowCount == Decided(mine, "allow") && row.correctCount == Decided(mine, "correct")
    && row.denyCount == Decided(mine, "deny")
    && (row.agentType == AgentRegistry.Internal <==> name == "organizer")
    && (row.demoFlag <==> forall i :: 0 <= i < |mine| ==> mine[i].demoFlag)
  }

  lemma SummarySumsUp(row: AgentRegistry.Row, name: string, mine: seq<Receipt>)
    requires mine != [] && Dated(mine) && AgentRegistry.Summarizes(row, name, AllObserved(mine))
    ensures SumsUp(row, name, mine)
  {
    hide AgentRegistry.CountDecision, Decided;
    var seen := AllObserved(mine);
    forall d ensures AgentRegistry.CountDecision(seen, d) == Decided(mine, d) {
      ObservedDecisions(mine, d);
    }
    assert seen[0].at == mine[0].createdAt && seen[|mine| - 1].at == mine[|mine| - 1].createdAt;
    var i :| 0 <= i < |seen| && seen[i].at == row.firstSeen;
    var j :| 0 <= j < |seen| && seen[j].at == row.lastSeen;
    assert forall k :: 0 <= k < |mine| ==> seen[k].demoFlag == mine[k].demoFlag;
  }

  /** In every run, an agent has a row exactly when it has receipts, and the row sums them up. */
  lemma {:induction false} RegistryRowsFromReceipts(c: Crypto, cmds: seq<Command>, name: string)
    requires SignsAndVerifies(c)
    ensures var l := Run(c, cmds); var mine := ReceiptsOf(l.rows, name);
      && (name in l.registry <==> mine != [])
      && (mine != [] ==> SumsUp(l.registry[name], name, mine))
  {
    hide Run, AgentRegistry.Summarizes, SumsUp;
    RunIsWellFormed(c, cmds);
    var l := Run(c, cmds);
    var mine := ReceiptsOf(l.rows, name);
    ObservedReceipts(l.rows, name);
    ReceiptsOfAreDated(l.rows, name);
    assert name in l.registry <==> AgentRegistry.OfAgent(AllObserved(l.rows), name) != [];
    if mine != [] { SummarySumsUp(l.registry[name], name, mine); }
  }

  /** Any table a backfill of the ordered receipts can produce is the registry kept all along. */
  lemma {:induction false} BackfillReproducesRegistry(c: Crypto, cmds: seq<Command>, table: AgentRegistry.Table)
    requires SignsAndVerifies(c)
    requires AgentRegistry.Matches(table, AllObserved(Ordered(Run(c, cmds).rows)))
    ensures table == Run(c, cmds).registry
  {
    RegistryIsView(c, cmds);
    ListingIsInsertionOrder(c, cmds);
    AgentRegistry.MatchUnique(table, Run(c, cmds).registry, AllObserved(Run(c, cmds).rows));
  }

  // ---------------------------------------------------------------------------
  // Repeated action ids
  // ---------------------------------------------------------------------------

  predicate Mentions(cmds: seq<Command>, actionId: string) {
    exists d :: d in cmds && d.insert.actionId == actionId
  }

  function FirstOccurrences(cmds: seq<Command>): seq<Command> {
    if cmds == [] then []
    else
      var init, last := cmds[..|cmds| - 1], cmds[|cmds| - 1];
      FirstOccurrences(init) + if Mentions(init, last.insert.actionId) then [] else [last]
  }

  /** Call i repeats an action id, and finds a table that holds neither that action id nor its own row id. */
  ghost predicate LateInsert(c: Crypto, cmds: seq<Command>, i: nat) {
    && i < |cmds|
    && Mentions(cmds[..i], cmds[i].insert.actionId)
    && !HasAction(Run(c, cmds[..i]).rows, cmds[i].insert.actionId)
    && !HasId(Run(c, cmds[..i]).rows, cmds[i].insert.id)
  }

  /** A call inserts exactly when the table holds neither its action id nor its row id. */
  lemma InsertsExactly(c: Crypto, l: Ledger, p: ReceiptInsert, now: int)
    ensures Append(c, l, p, now).1.Inserted? <==> !HasAction(l.rows, p.actionId) && !HasId(l.rows, p.id)
  {
    hide HasAction, FindAction, HasId, NewRow;
    FindActionFinds(l.rows, p.actionId);
  }

  lemma FirstOccurrencesSnoc(cmds: seq<Command>, d: Command)
    ensures FirstOccurrences(cmds + [d])
         == FirstOccurrences(cmds) + if Mentions(cmds, d.insert.actionId) then [] else [d]
  {
    assert (cmds + [d])[..|cmds|] == cmds;
  }

  lemma RunSnoc(c: Crypto, cmds: seq<Command>, d: Command)
    ensures Run(c, cmds + [d]) == Append(c, Run(c, cmds), d.insert, d.now).0
  {
    assert (cmds + [d])[..|cmds|] == cmds;
  }

  lemma {:induction false} NoLateInsertSameLedger(c: Crypto, cmds: seq<Command>)
    requires forall i :: 0 <= i < |cmds| ==> !LateInsert(c, cmds, i)
    ensures Run(c, cmds) == Run(c, FirstOccurrences(cmds))
  {
    if cmds == [] {
    } else {
      var n := |cmds| - 1;
      var init, last := cmds[..n], cmds[n];
      forall i | 0 <= i < n ensures !LateInsert(c, init, i) {
        assert init[..i] == cmds[..i];
        assert !LateInsert(c, cmds, i);
      }
      NoLateInsertSameLedger(c, init);
      InsertsExactly(c, Run(c, init), last.insert, last.now);
      if Mentions(init, last.insert.actionId) {
        assert !LateInsert(c, cmds, n);
        assert FirstOccurrences(cmds) == FirstOccurrences(init);
      } else {
        RunSnoc(c, FirstOccurrences(init), last);
      }
    }
  }

  lemma AppendActions(c: Crypto, l: Ledger, p: ReceiptInsert, now: int, actionId: string)
    ensures HasAction(l.rows, actionId) ==> HasAction(Append(c, l, p, now).0.rows, actionId)
    ensures HasAction(Append(c, l, p, now).0.rows, actionId) ==>
      HasAction(l.rows, actionId) || (p.actionId == actionId && Append(c, l, p, now).1.Inserted?)
    ensures Append(c, l, p, now).1.Inserted? ==> HasAction(Append(c, l, p, now).0.rows, p.actionId)
  {
    if Append(c, l, p, now).1.Inserted? {
      var r := NewRow(c, l.rows, p, now);
      assert r in l.rows + [r];
    }
  }

  ghost predicate Records(c: Crypto, cmds: seq<Command>, actionId: string) {
    HasAction(Run(c, cmds).rows, actionId)
  }

  lemma RecordsSnoc(c: Crypto, cmds: seq<Command>, d: Command, actionId: string)
    ensures Records(c, cmds, actionId) ==> Records(c, cmds + [d], actionId)
    ensures Records(c, cmds + [d], actionId) ==> Records(c, cmds, actionId) || d.insert.actionId == actionId
  {
    RunSnoc(c, cmds, d);
    AppendActions(c, Run(c, cmds), d.insert, d.now, actionId);
  }

  ghost predicate FirstLateInsert(c: Crypto, cmds: seq<Command>, i: nat) {
    LateInsert(c, cmds, i) && forall k :: 0 <= k < i ==> !LateInsert(c, cmds, k)
  }

  /** Up to the first late insert nobody has recorded its action; the full run then does. */
  lemma AtFirstLateInsert(c: Crypto, cmds: seq<Command>, i: nat)
    requires FirstLateInsert(c, cmds, i)
    ensures !Records(c, FirstOccurrences(cmds[..i]), cmds[i].insert.actionId)
    ensures Records(c, cmds[..i + 1], cmds[i].insert.actionId)
  {
    hide Run, Append;
    var init, d := cmds[..i], cmds[i];
    forall k | 0 <= k < i ensures !LateInsert(c, init, k) {
      assert init[..k] == cmds[..k];
      assert !LateInsert(c, cmds, k);
    }
    NoLateInsertSameLedger(c, init);
    InsertsExactly(c, Run(c, init), d.insert, d.now);
    assert cmds[..i + 1] == init + [d];
    RunSnoc(c, init, d);
    AppendActions(c, Run(c, init), d.insert, d.now, d.insert.actionId);
  }

  /** From the first late insert on, its action is recorded by the full run and by that run alone. */
  lemma {:induction false} LateInsertStays(c: Crypto, cmds: seq<Command>, i: nat, n: nat)
    requires FirstLateInsert(c, cmds, i) && i < n <= |cmds|
    ensures Records(c, cmds[..n], cmds[i].insert.actionId)
    ensures !Records(c, FirstOccurrences(cmds[..n]), cmds[i].insert.actionId)
    decreases n
  {
    hide Run, HasAction, Append, FirstOccurrences;
    var b := cmds[i].insert.actionId;
    var init, last := cmds[..n - 1], cmds[n - 1];
    assert cmds[..n] == init + [last];
    FirstOccurrencesSnoc(init, last);
    if n - 1 == i {
      AtFirstLateInsert(c, cmds, i);
    } else {
      LateInsertStays(c, cmds, i, n - 1);
      RecordsSnoc(c, init, last, b);
    }
    if !Mentions(init, last.insert.actionId) {
      assert last.insert.actionId != b by {
        if n - 1 > i { assert init[i] in init; }
      }
      RecordsSnoc(c, FirstOccurrences(init), last, b);
    } else {
      assert FirstOccurrences(cmds[..n]) == FirstOccurrences(init);
    }
  }

  lemma FindFirstLateInsert(c: Crypto, cmds: seq<Command>, n: nat) returns (i: nat)
    requires n < |cmds| && LateInsert(c, cmds, n)
    ensures FirstLateInsert(c, cmds, i)
  {
    hide Run, Append, Mentions;
    i := 0;
    while !LateInsert(c, cmds, i)
      invariant i <= n && forall k :: 0 <= k < i ==> !LateInsert(c, cmds, k)
      decreases n - i
    {
      i := i + 1;
    }
  }

  /** Repeats leave the ledger of the first occurrences exactly when no repeat gets to insert. */
  lemma {:induction false} RepeatsChangeNothingExactly(c: Crypto, cmds: seq<Command>)
    ensures Run(c, cmds) == Run(c, FirstOccurrences(cmds))
       <==> forall i :: 0 <= i < |cmds| ==> !LateInsert(c, cmds, i)
  {
    hide Run, Append;
    if forall i :: 0 <= i < |cmds| ==> !LateInsert(c, cmds, i) {
      NoLateInsertSameLedger(c, cmds);
    } else {
      var n :| 0 <= n < |cmds| && LateInsert(c, cmds, n);
      var i := FindFirstLateInsert(c, cmds, n);
      LateInsertStays(c, cmds, i, |cmds|);
      assert cmds[..|cmds|] == cmds;
    }
  }

  /** Refused for its row id and then repeated under another: the run that does record the action in the end. */
  lemma {:induction false} RefusedThenRepeated(c: Crypto, a: Command, b: Command, d: Command)
    requires b.insert.id == a.insert.id && b.insert.actionId != a.insert.actionId
    requires d.insert.actionId == b.insert.actionId && d.insert.id != a.insert.id
    ensures Run(c, [a, b, d]) != Run(c, FirstOccurrences([a, b, d]))
  {
    hide NewRow, FirstOccurrences, Append;
    var cmds := [a, b, d];
    RunSnoc(c, [], a);
    RunSnoc(c, [a], b);
    assert [] + [a] == [a] && [a] + [b] == [a, b] && cmds[..2] == [a, b];
    AppendedRow(c, EMPTY, a.insert, a.now);
    AppendedRow(c, Run(c, [a]), b.insert, b.now);
    var r := NewRow(c, [], a.insert, a.now);
    assert Run(c, [a]).rows == [r] && r in [r];
    assert Run(c, [a, b]).rows == [r];
    assert b in cmds[..2] && LateInsert(c, cmds, 2);
    RepeatsChangeNothingExactly(c, cmds);
  }

  /** A row id names one action only, as when ids are fresh. */
  ghost predicate IdsNameActions(cmds: seq<Command>) {
    forall d, e :: d in cmds && e in cmds && d.insert.id == e.insert.id ==> d.insert.actionId == e.insert.actionId
  }

  lemma {:induction false} RowsComeFromCommands(c: Crypto, cmds: seq<Command>)
    ensures forall r :: r in Run(c, cmds).rows ==>
      exists d :: d in cmds && d.insert.id == r.id && d.insert.actionId == r.actionId
  {
    hide Append, NewRow, HasAction, HasId;
    if cmds == [] {
    } else {
      var init, last := cmds[..|cmds| - 1], cmds[|cmds| - 1];
      RowsComeFromCommands(c, init);
      assert cmds == init + [last];
      AppendedRow(c, Run(c, init), last.insert, last.now);
      forall r | r in Run(c, cmds).rows
        ensures exists d :: d in cmds && d.insert.id == r.id && d.insert.actionId == r.actionId
      {
        if r in Run(c, init).rows {
          var d :| d in init && d.insert.id == r.id && d.insert.actionId == r.actionId;
          assert d in cmds;
        } else {
          assert last in cmds && last.insert.id == r.id;
        }
      }
    }
  }

  lemma {:induction false} MentionedIsRecorded(c: Crypto, cmds: seq<Command>, actionId: string)
    requires IdsNameActions(cmds) && Mentions(cmds, actionId)
    ensures HasAction(Run(c, cmds).rows, actionId)
  {
    var init, last := cmds[..|cmds| - 1], cmds[|cmds| - 1];
    assert cmds == init + [last];
    AppendActions(c, Run(c, init), last.insert, last.now, actionId);
    if Mentions(init, actionId) {
      MentionedIsRecorded(c, init, actionId);
    } else {
      assert last.insert.actionId == actionId;
      FindActionFinds(Run(c, init).rows, actionId);
      RowsComeFromCommands(c, init);
      forall r | r in Run(c, init).rows ensures r.id != last.insert.id {
        var d :| d in init && d.insert.id == r.id && d.insert.actionId == r.actionId;
        assert d in cmds && last in cmds && d.insert.actionId != actionId;
      }
    }
  }

  /** With fresh row ids, repeating action ids leaves the ledger of their first occurrences alone. */
  lemma {:induction false} FreshIdsMakeRepeatsHarmless(c: Crypto, cmds: seq<Command>)
    requires IdsNameActions(cmds)
    ensures Run(c, cmds) == Run(c, FirstOccurrences(cmds))
  {
    forall i | 0 <= i < |cmds| ensures !LateInsert(c, cmds, i) {
      if Mentions(cmds[..i], cmds[i].insert.actionId) {
        MentionedIsRecorded(c, cmds[..i], cmds[i].insert.actionId);
        FindActionFinds(Run(c, cmds[..i]).rows, cmds[i].insert.actionId);
      }
    }
    NoLateInsertSameLedger(c, cmds);
  }
}

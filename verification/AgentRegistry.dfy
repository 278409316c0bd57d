/** The per-agent registry kept beside the receipt ledger. */
module AgentRegistry {

  /** What one receipt tells the registry; times are in microseconds. */
  datatype Observation = Observation(
    agentName: string, decision: string, intent: string, actionId: string, at: int, demoFlag: bool)

  datatype AgentType = Internal | ExternalMcp

  datatype Row = Row(
    agentName: string, firstSeen: int, lastSeen: int,
    totalActions: nat, allowCount: nat, correctCount: nat, denyCount: nat,
    lastIntent: string, lastActionId: string, agentType: AgentType, demoFlag: bool)

  type Table = map<string, Row>

  // ---------------------------------------------------------------------------
  // Name and decision normalisation
  // ---------------------------------------------------------------------------

  predicate Blank(c: char) { c == ' ' || c == '\t' || c == '\n' || c == '\r' }

  function Strip(s: string): string {
    if s == [] then []
    else if Blank(s[0]) then Strip(s[1..])
    else if Blank(s[|s| - 1]) then Strip(s[..|s| - 1])
    else s
  }

  function LowerChar(c: char): char {
    if 'A' <= c <= 'Z' then c - 'A' + 'a' else c
  }

  function Lower(s: string): string {
    seq(|s|, i requires 0 <= i < |s| => LowerChar(s[i]))
  }

  function NormalAgent(name: string): string {
    if Strip(name) == [] then "external_mcp_client" else Strip(name)
  }

  function NormalDecision(decision: string): string { Lower(Strip(decision)) }

  function ClassifyAgentType(name: string): AgentType {
    if name == "organizer" then Internal else ExternalMcp
  }

  const BLANKS := {' ', '\t', '\n', '\r'}

  ghost predicate AllBlank(s: string) { forall k :: 0 <= k < |s| ==> s[k] in BLANKS }

  /** Nothing, or a text that neither starts nor ends with a blank. */
  predicate Trimmed(s: string) { s != [] ==> s[0] !in BLANKS && s[|s| - 1] !in BLANKS }

  /** Stripping takes away the blanks around a text, whatever is in it. */
  lemma {:induction false} StripExactly(before: string, s: string, after: string)
    requires AllBlank(before) && Trimmed(s) && AllBlank(after)
    ensures Strip(before + s + after) == s
    decreases |before| + |after|
  {
    assert forall ch :: Blank(ch) <==> ch in BLANKS;
    hide Blank, BLANKS;
    var all := before + s + after;
    if before != [] {
      assert all[0] == before[0] && all[1..] == before[1..] + s + after;
      StripExactly(before[1..], s, after);
    } else if after != [] {
      assert all[|all| - 1] == after[|after| - 1] && all[..|all| - 1] == before + s + after[..|after| - 1];
      if s == [] {
        assert all == after && all[1..] == before + s + after[1..];
        StripExactly(before, s, after[1..]);
      } else {
        assert all[0] == s[0];
        StripExactly(before, s, after[..|after| - 1]);
      }
    } else {
      assert all == s;
    }
  }

  /** Every name is such a text. */
  lemma {:induction false} StripSplits(name: string) returns (before: string, after: string)
    ensures AllBlank(before) && Trimmed(Strip(name)) && AllBlank(after) && name == before + Strip(name) + after
  {
    if name == [] {
      before, after := [], [];
    } else if Blank(name[0]) {
      before, after := StripSplits(name[1..]);
      before := [name[0]] + before;
    } else if Blank(name[|name| - 1]) {
      before, after := StripSplits(name[..|name| - 1]);
      assert name == name[..|name| - 1] + [name[|name| - 1]];
      after := after + [name[|name| - 1]];
    } else {
      before, after := [], [];
    }
  }

  /** An agent is registered under its name without the blanks around it, and a blank one under a name of its own. */
  lemma NormalAgentExactly(before: string, name: string, after: string)
    requires AllBlank(before) && Trimmed(name) && AllBlank(after)
    ensures NormalAgent(before + name + after) == if name == "" then "external_mcp_client" else name
  {
    StripExactly(before, name, after);
  }

  /** A decision is read without the blanks around it and with its capitals made small. */
  lemma NormalDecisionExactly(before: string, decision: string, after: string)
    requires AllBlank(before) && Trimmed(decision) && AllBlank(after)
    ensures var d := NormalDecision(before + decision + after);
      && |d| == |decision|
      && forall i :: 0 <= i < |d| ==>
           d[i] as int == decision[i] as int + if 'A' <= decision[i] <= 'Z' then 32 else 0
  {
    StripExactly(before, decision, after);
  }

  /** The organizer alone is internal. */
  lemma AgentTypeExactly(name: string)
    ensures ClassifyAgentType(name) == Internal <==> name == "organizer"
  {
  }

  // ---------------------------------------------------------------------------
  // What a row must say about the observations of its agent
  // ---------------------------------------------------------------------------

  function OfAgent(seen: seq<Observation>, name: string): seq<Observation> {
    if seen == [] then []
    else
      var rest := OfAgent(seen[..|seen| - 1], name);
      if NormalAgent(seen[|seen| - 1].agentName) == name then rest + [seen[|seen| - 1]] else rest
  }

  function CountDecision(seen: seq<Observation>, decision: string): nat {
    if seen == [] then 0
    else CountDecision(seen[..|seen| - 1], decision)
         + if NormalDecision(seen[|seen| - 1].decision) == decision then 1 else 0
  }

  ghost predicate Summarizes(row: Row, name: string, seen: seq<Observation>) {
    && seen != []
    && row.agentName == name
    && row.totalActions == |seen|
    && row.allowCount == CountDecision(seen, "allow")
    && row.correctCount == CountDecision(seen, "correct")
    && row.denyCount == CountDecision(seen, "deny")
    && (forall i :: 0 <= i < |seen| ==> row.firstSeen <= seen[i].at <= row.lastSeen)
    && (exists i :: 0 <= i < |seen| && seen[i].at == row.firstSeen)
    && (exists i :: 0 <= i < |seen| && seen[i].at == row.lastSeen)
    && row.lastIntent == seen[|seen| - 1].intent
    && row.lastActionId == seen[|seen| - 1].actionId
    && row.agentType == ClassifyAgentType(name)
    && (row.demoFlag <==> forall i :: 0 <= i < |seen| ==> seen[i].demoFlag)
  }

  /** One row for each observed agent, summarising exactly that agent's observations. */
  ghost predicate Matches(table: Table, seen: seq<Observation>) {
    && (forall name :: name in table <==> OfAgent(seen, name) != [])
    && (forall name :: name in table ==> Summarizes(table[name], name, OfAgent(seen, name)))
  }

  lemma SummaryUnique(r: Row, q: Row, name: string, seen: seq<Observation>)
    requires Summarizes(r, name, seen) && Summarizes(q, name, seen)
    ensures r == q
  {
    var i :| 0 <= i < |seen| && seen[i].at == r.firstSeen;
    var j :| 0 <= j < |seen| && seen[j].at == q.firstSeen;
    var k :| 0 <= k < |seen| && seen[k].at == r.lastSeen;
    var l :| 0 <= l < |seen| && seen[l].at == q.lastSeen;
  }

  /** The observations determine the whole table. */
  lemma MatchUnique(t: Table, u: Table, seen: seq<Observation>)
    requires Matches(t, seen) && Matches(u, seen)
    ensures t == u
  {
    assert t.Keys == u.Keys by {
      forall name ensures name in t <==> name in u {
        assert name in t <==> OfAgent(seen, name) != [];
      }
    }
    forall name | name in t ensures t[name] == u[name] {
      SummaryUnique(t[name], u[name], name, OfAgent(seen, name));
    }
  }

  // ---------------------------------------------------------------------------
  // One observation
  // ---------------------------------------------------------------------------

  function NewRow(name: string, o: Observation): Row {
    Row(name, o.at, o.at, 0, 0, 0, 0, "", "", ClassifyAgentType(name), o.demoFlag)
  }

  function Bumped(row: Row, o: Observation): Row {
    var d := NormalDecision(o.decision);
    Row(row.agentName,
        if o.at < row.firstSeen then o.at else row.firstSeen,
        if o.at > row.lastSeen then o.at else row.lastSeen,
        row.totalActions + 1,
        row.allowCount + if d == "allow" then 1 else 0,
        row.correctCount + if d == "correct" then 1 else 0,
        row.denyCount + if d == "deny" then 1 else 0,
        o.intent, o.actionId, ClassifyAgentType(row.agentName), row.demoFlag && o.demoFlag)
  }

  function Upserted(table: Table, o: Observation): Table {
    var name := NormalAgent(o.agentName);
    table[name := Bumped(if name in table then table[name] else NewRow(name, o), o)]
  }

  lemma NewRowSummarizes(name: string, o: Observation)
    ensures Summarizes(Bumped(NewRow(name, o), o), name, [o])
  {
    assert [o][..0] == [];
    assert [o][0].at == o.at;
    assert CountDecision([], "allow") == CountDecision([], "correct") == CountDecision([], "deny") == 0;
  }

  lemma BumpedSummarizes(row: Row, name: string, seen: seq<Observation>, o: Observation)
    requires Summarizes(row, name, seen)
    ensures Summarizes(Bumped(row, o), name, seen + [o])
  {
    var all, r := seen + [o], Bumped(row, o);
    assert all[..|seen|] == seen;
    assert all[|seen|].at == o.at;
    var i :| 0 <= i < |seen| && seen[i].at == row.firstSeen;
    var j :| 0 <= j < |seen| && seen[j].at == row.lastSeen;
    assert all[i].at == row.firstSeen && all[j].at == row.lastSeen;
    BumpedDemoFlag(row, name, seen, o);
  }

  lemma BumpedDemoFlag(row: Row, name: string, seen: seq<Observation>, o: Observation)
    requires Summarizes(row, name, seen)
    ensures (row.demoFlag && o.demoFlag) <==> forall i :: 0 <= i < |seen + [o]| ==> (seen + [o])[i].demoFlag
  {
    if forall i :: 0 <= i < |seen + [o]| ==> (seen + [o])[i].demoFlag {
      forall i | 0 <= i < |seen| ensures seen[i].demoFlag { assert (seen + [o])[i].demoFlag; }
      assert (seen + [o])[|seen|].demoFlag;
    }
  }

  lemma OfAgentSnoc(seen: seq<Observation>, o: Observation, name: string)
    ensures OfAgent(seen + [o], name) == OfAgent(seen, name) + if NormalAgent(o.agentName) == name then [o] else []
  {
    assert (seen + [o])[..|seen|] == seen;
  }

  lemma NothingMatches()
    ensures Matches(map[], [])
  {
  }

  lemma UpsertKeepsMatch(table: Table, seen: seq<Observation>, o: Observation)
    requires Matches(table, seen)
    ensures Matches(Upserted(table, o), seen + [o])
  {
    hide Summarizes, Bumped, NewRow, OfAgent;
    forall n ensures n in Upserted(table, o) <==> OfAgent(seen + [o], n) != [] {
      OfAgentSnoc(seen, o, n);
      assert n in table <==> OfAgent(seen, n) != [];
    }
    forall n | n in Upserted(table, o) ensures Summarizes(Upserted(table, o)[n], n, OfAgent(seen + [o], n)) {
      OfAgentSnoc(seen, o, n);
      if n != NormalAgent(o.agentName) {
        assert Summarizes(table[n], n, OfAgent(seen, n));
        assert OfAgent(seen + [o], n) == OfAgent(seen, n);
      } else if n in table {
        BumpedSummarizes(table[n], n, OfAgent(seen, n), o);
      } else {
        NewRowSummarizes(n, o);
        assert OfAgent(seen, n) == [];
        assert OfAgent(seen + [o], n) == [o];
      }
    }
  }

  /** The registry computed afresh from a list of observations. */
  function Recomputed(seen: seq<Observation>): Table {
    if seen == [] then map[] else Upserted(Recomputed(seen[..|seen| - 1]), seen[|seen| - 1])
  }

  lemma {:induction false} RecomputedMatches(seen: seq<Observation>)
    ensures Matches(Recomputed(seen), seen)
  {
    hide Matches, Upserted;
    if seen == [] {
      NothingMatches();
    } else {
      var p := seen[..|seen| - 1];
      RecomputedMatches(p);
      UpsertKeepsMatch(Recomputed(p), p, seen[|seen| - 1]);
      assert p + [seen[|seen| - 1]] == seen;
    }
  }

  // ---------------------------------------------------------------------------
  // The table of the source, updated in place
  // ---------------------------------------------------------------------------

  class RegistryTable {
    var rows: Table

    constructor ()
      ensures rows == map[]
    {
      rows := map[];
    }

    method UpsertAgentObservation(o: Observation)
      modifies this
      ensures rows == Upserted(old(rows), o)
    {
      var name := NormalAgent(o.agentName);
      var decision := NormalDecision(o.decision);
      var row := if name in rows then rows[name] else NewRow(name, o);
      if o.at > row.lastSeen {
        row := row.(lastSeen := o.at);
      }
      if o.at < row.firstSeen {
        row := row.(firstSeen := o.at);
      }
      row := row.(totalActions := row.totalActions + 1);
      if decision == "allow" {
        row := row.(allowCount := row.allowCount + 1);
      } else if decision == "correct" {
        row := row.(correctCount := row.correctCount + 1);
      } else if decision == "deny" {
        row := row.(denyCount := row.denyCount + 1);
      }
      row := row.(lastIntent := o.intent, lastActionId := o.actionId);
      row := row.(agentType := ClassifyAgentType(row.agentName), demoFlag := row.demoFlag && o.demoFlag);
      rows := rows[name := row];
    }

    /** Fills an empty table from the receipts in order; leaves any other table alone. */
    method Backfill(receipts: seq<Observation>) returns (count: nat)
      modifies this
      ensures old(rows) != map[] ==> rows == old(rows) && count == 0
      ensures old(rows) == map[] ==> Matches(rows, receipts) && count == |receipts|
    {
      hide Matches, Upserted;
      NothingMatches();
      if |rows| > 0 {
        return 0;
      }
      assert rows == map[];
      assert receipts[..0] == [];
      for i := 0 to |receipts|
        invariant Matches(rows, receipts[..i])
      {
        UpsertKeepsMatch(rows, receipts[..i], receipts[i]);
        assert receipts[..i] + [receipts[i]] == receipts[..i + 1];
        UpsertAgentObservation(receipts[i]);
      }
      assert receipts[..|receipts|] == receipts;
      return |receipts|;
    }
  }
}

/**
 * Passport verification with its steps apart: other calls run between the look into the cache, the read of
 * the row, and the store into the cache, and between a commit and the clearing of the cache.
 */
module PassportCache {
  import opened Prelude
  import opened Passports

  /** One committed state of a passport's row, and the monotonic time of the commit. */
  datatype Version = Version(row: Passport, committedAt: int)

  /** A cached row with its expiry; history: whose row it is, and which version. */
  datatype CacheEntry = CacheEntry(expiry: int, id: string, version: nat, row: Passport)

  datatype Call =
    | Looked(startedAt: int, h: string, cached: Option<CacheEntry>)     // has fetched the cache entry, if any
    | Missed(startedAt: int, h: string, readAt: int)                    // has read the clock and found nothing live
    | Read(startedAt: int, h: string, readAt: int, id: string, version: nat, row: Passport)
    | Refreshed(startedAt: int, h: string, readAt: int, id: string,   // has validated `basis` and read the row again
                validated: nat, basis: Passport, version: nat, row: Passport)
    | Finished

  /** History: one acceptance, the time the call started, the row version it was validated on, and the row returned. */
  datatype Acceptance = Acceptance(startedAt: int, id: string, version: nat, row: Passport, returned: Passport)

  datatype State = State(
    clock: int, versions: map<string, seq<Version>>, credentials: map<string, string>,
    cache: map<string, CacheEntry>, calls: seq<Call>, accepted: seq<Acceptance>)

  const START := State(0, map[], map[], map[], [], [])

  datatype Change = RevokeRow(reason: Option<string>, now: int) | SetSwitch(enabled: bool)

  datatype Step =
    | Tick(elapsed: nat)
    | IssueRow(id: string, h: string, row: Passport)
    | Commit(id: string, change: Change)
    | Clear
    | BeginCall(h: string)
    | CheckClock(k: nat, now: int)
    | ReadRow(k: nat, now: int)
    | RefreshRow(k: nat)
    | StoreEntry(k: nat)

  // ---------------------------------------------------------------------------
  // Steps
  // ---------------------------------------------------------------------------

  function Changed(c: Crypto, row: Passport, change: Change): Passport {
    match change
    case RevokeRow(reason, now) => RevokedRow(c, row, reason, now)
    case SetSwitch(enabled) => ToggledRow(c, row, enabled)
  }

  function Current(s: State, id: string): Version
    requires id in s.versions && s.versions[id] != []
  {
    s.versions[id][|s.versions[id]| - 1]
  }

  predicate Enabled(s: State, step: Step) {
    match step
    case Tick(_) => true
    case IssueRow(id, h, _) => id !in s.versions && h !in s.credentials
    case Commit(id, _) => id in s.versions && s.versions[id] != []
    case Clear => true
    case BeginCall(_) => true
    case CheckClock(k, _) => k < |s.calls| && s.calls[k].Looked?
    case ReadRow(k, _) => k < |s.calls| && s.calls[k].Missed?
    case RefreshRow(k) =>
      k < |s.calls| && s.calls[k].Read? && s.calls[k].id in s.versions && s.versions[s.calls[k].id] != []
    case StoreEntry(k) => k < |s.calls| && s.calls[k].Refreshed?
  }

  function Next(c: Crypto, s: State, step: Step): State
    requires Enabled(s, step)
  {
    match step
    case Tick(elapsed) => s.(clock := s.clock + elapsed)
    case IssueRow(id, h, row) =>
      s.(versions := s.versions[id := [Version(row, s.clock)]], credentials := s.credentials[h := id])
    case Commit(id, change) =>
      s.(versions := s.versions[id := s.versions[id] + [Version(Changed(c, Current(s, id).row, change), s.clock)]])
    case Clear => s.(cache := map[])
    case BeginCall(h) =>
      s.(calls := s.calls + [Looked(s.clock, h, if h in s.cache then Some(s.cache[h]) else None)])
    case CheckClock(k, now) =>
      var call := s.calls[k];
      if call.cached.Some? && call.cached.value.expiry > s.clock then
        var e := call.cached.value;
        s.(calls := s.calls[k := Finished],
           accepted := if ValidatePassport(c, e.row, now).Accepted?
                       then s.accepted + [Acceptance(call.startedAt, e.id, e.version, e.row, e.row)] else s.accepted)
      else s.(calls := s.calls[k := Missed(call.startedAt, call.h, s.clock)])
    case ReadRow(k, now) =>
      var call := s.calls[k];
      if call.h !in s.credentials || s.credentials[call.h] !in s.versions
         || s.versions[s.credentials[call.h]] == [] then s.(calls := s.calls[k := Finished])
      else
        var id := s.credentials[call.h];
        var row := Current(s, id).row;
        if ValidatePassport(c, row, now).Refused? then s.(calls := s.calls[k := Finished])
        else s.(calls := s.calls[k := Read(call.startedAt, call.h, call.readAt, id, |s.versions[id]| - 1, row)])
    case RefreshRow(k) =>
      var call := s.calls[k];
      s.(calls := s.calls[k := Refreshed(call.startedAt, call.h, call.readAt, call.id, call.version, call.row,
                                         |s.versions[call.id]| - 1, Current(s, call.id).row)])
    case StoreEntry(k) =>
      var call := s.calls[k];
      s.(cache := s.cache[call.h := CacheEntry(call.readAt + VERIFY_CACHE_TTL, call.id, call.version, call.row)],
         calls := s.calls[k := Finished],
         accepted := s.accepted + [Acceptance(call.startedAt, call.id, call.validated, call.basis, call.row)])
  }

  /** A step that is not enabled does nothing, so every list of steps is a run. */
  function Do(c: Crypto, s: State, step: Step): State { if Enabled(s, step) then Next(c, s, step) else s }

  function Run(c: Crypto, s: State, steps: seq<Step>): State
    decreases |steps|
  {
    if steps == [] then s else Do(c, Run(c, s, steps[..|steps| - 1]), steps[|steps| - 1])
  }

  // ---------------------------------------------------------------------------
  // Staleness is bounded
  // ---------------------------------------------------------------------------

  /** `row` is a committed version of the passport, and `t` lies no later than the commit that replaced it. */
  ghost predicate ReadBy(versions: map<string, seq<Version>>, id: string, version: nat, row: Passport, t: int) {
    && id in versions && version < |versions[id]| && versions[id][version].row == row
    && (version + 1 < |versions[id]| ==> t <= versions[id][version + 1].committedAt)
  }

  ghost predicate EntryOk(s: State, e: CacheEntry) {
    e.expiry <= s.clock + VERIFY_CACHE_TTL && ReadBy(s.versions, e.id, e.version, e.row, e.expiry - VERIFY_CACHE_TTL)
  }

  ghost predicate CallOk(s: State, call: Call) {
    match call
    case Looked(t, _, cached) => t <= s.clock && (cached.Some? ==> EntryOk(s, cached.value))
    case Missed(t, _, readAt) => t <= readAt <= s.clock
    case Read(t, _, readAt, id, version, row) => t <= readAt <= s.clock && ReadBy(s.versions, id, version, row, readAt)
    case Refreshed(t, _, readAt, id, validated, basis, version, row) =>
      && t <= readAt <= s.clock && validated <= version
      && ReadBy(s.versions, id, validated, basis, readAt) && ReadBy(s.versions, id, version, row, readAt)
    case Finished => true
  }

  /** A call is accepted on a row only if it started before the row was replaced, or within the TTL after. */
  ghost predicate Fresh(s: State, a: Acceptance) {
    && a.id in s.versions && a.version < |s.versions[a.id]| && s.versions[a.id][a.version].row == a.row
    && a.startedAt <= s.clock
    && (a.version + 1 < |s.versions[a.id]| ==>
          a.startedAt < s.versions[a.id][a.version + 1].committedAt + VERIFY_CACHE_TTL)
  }

  ghost predicate Inv(s: State) {
    && (forall id :: id in s.versions ==> s.versions[id] != [])
    && (forall h :: h in s.cache ==> EntryOk(s, s.cache[h]))
    && (forall k :: 0 <= k < |s.calls| ==> CallOk(s, s.calls[k]))
    && (forall i :: 0 <= i < |s.accepted| ==> Fresh(s, s.accepted[i]))
  }

  /** Time passes and versions are added, each committed now. */
  ghost predicate Later(s: State, t: State) {
    && s.clock <= t.clock
    && (forall id :: id in s.versions ==> id in t.versions && s.versions[id] <= t.versions[id])
    && (forall id, v :: id in s.versions && |s.versions[id]| <= v < |t.versions[id]| ==>
          t.versions[id][v].committedAt >= s.clock)
  }

  lemma LaterKeepsReadBy(s: State, t: State, id: string, version: nat, row: Passport, at: int)
    requires Later(s, t) && ReadBy(s.versions, id, version, row, at) && at <= s.clock
    ensures ReadBy(t.versions, id, version, row, at)
  {
    assert s.versions[id] <= t.versions[id];
    if version + 1 < |t.versions[id]| && version + 1 >= |s.versions[id]| {
      assert t.versions[id][version + 1].committedAt >= s.clock;
    }
  }

  lemma LaterKeepsEntry(s: State, t: State, e: CacheEntry)
    requires Later(s, t) && EntryOk(s, e)
    ensures EntryOk(t, e)
  {
    hide Later, ReadBy;
    assert s.clock <= t.clock by { LaterClock(s, t); }
    LaterKeepsReadBy(s, t, e.id, e.version, e.row, e.expiry - VERIFY_CACHE_TTL);
  }

  lemma LaterClock(s: State, t: State)
    requires Later(s, t)
    ensures s.clock <= t.clock
  {
  }

  lemma LaterKeepsCall(s: State, t: State, call: Call)
    requires Later(s, t) && CallOk(s, call)
    ensures CallOk(t, call)
  {
    hide Later, ReadBy, EntryOk;
    LaterClock(s, t);
    match call
    case Looked(_, _, cached) =>
      if cached.Some? { LaterKeepsEntry(s, t, cached.value); }
    case Missed(_, _, _) =>
    case Read(_, _, readAt, id, version, row) => LaterKeepsReadBy(s, t, id, version, row, readAt);
    case Refreshed(_, _, readAt, id, validated, basis, version, row) =>
      LaterKeepsReadBy(s, t, id, validated, basis, readAt);
      LaterKeepsReadBy(s, t, id, version, row, readAt);
    case Finished =>
  }

  lemma LaterKeepsFresh(s: State, t: State, a: Acceptance)
    requires Later(s, t) && Fresh(s, a)
    ensures Fresh(t, a)
  {
    assert s.versions[a.id] <= t.versions[a.id];
    if a.version + 1 < |t.versions[a.id]| && a.version + 1 >= |s.versions[a.id]| {
      assert t.versions[a.id][a.version + 1].committedAt >= s.clock;
    }
  }

  lemma StepIsLater(c: Crypto, s: State, step: Step)
    requires Enabled(s, step)
    ensures Later(s, Next(c, s, step))
  {
    hide Changed, ValidatePassport;
  }

  lemma StepKeepsOld(c: Crypto, s: State, t: State)
    requires Inv(s) && Later(s, t)
    ensures forall h :: h in s.cache ==> EntryOk(t, s.cache[h])
    ensures forall k :: 0 <= k < |s.calls| ==> CallOk(t, s.calls[k])
    ensures forall i :: 0 <= i < |s.accepted| ==> Fresh(t, s.accepted[i])
  {
    hide Later, EntryOk, CallOk, Fresh;
    forall h | h in s.cache ensures EntryOk(t, s.cache[h]) { LaterKeepsEntry(s, t, s.cache[h]); }
    forall k | 0 <= k < |s.calls| ensures CallOk(t, s.calls[k]) { LaterKeepsCall(s, t, s.calls[k]); }
    forall i | 0 <= i < |s.accepted| ensures Fresh(t, s.accepted[i]) { LaterKeepsFresh(s, t, s.accepted[i]); }
  }

  lemma CheckClockKeepsInv(c: Crypto, s: State, k: nat, now: int)
    requires Inv(s) && Enabled(s, CheckClock(k, now))
    ensures Inv(Next(c, s, CheckClock(k, now)))
  {
    hide ValidatePassport, Later;
    var t := Next(c, s, CheckClock(k, now));
    StepIsLater(c, s, CheckClock(k, now));
    StepKeepsOld(c, s, t);
    assert CallOk(s, s.calls[k]);
  }

  lemma ReadRowKeepsInv(c: Crypto, s: State, k: nat, now: int)
    requires Inv(s) && Enabled(s, ReadRow(k, now))
    ensures Inv(Next(c, s, ReadRow(k, now)))
  {
    hide ValidatePassport, Later;
    var t := Next(c, s, ReadRow(k, now));
    StepIsLater(c, s, ReadRow(k, now));
    StepKeepsOld(c, s, t);
    assert CallOk(s, s.calls[k]);
  }

  lemma RefreshRowKeepsInv(c: Crypto, s: State, k: nat)
    requires Inv(s) && Enabled(s, RefreshRow(k))
    ensures Inv(Next(c, s, RefreshRow(k)))
  {
    hide Later, EntryOk, Fresh;
    var t := Next(c, s, RefreshRow(k));
    StepIsLater(c, s, RefreshRow(k));
    StepKeepsOld(c, s, t);
    assert CallOk(s, s.calls[k]);
  }

  lemma StoreEntryKeepsInv(c: Crypto, s: State, k: nat)
    requires Inv(s) && Enabled(s, StoreEntry(k))
    ensures Inv(Next(c, s, StoreEntry(k)))
  {
    hide ValidatePassport, Later;
    var t := Next(c, s, StoreEntry(k));
    StepIsLater(c, s, StoreEntry(k));
    StepKeepsOld(c, s, t);
    assert CallOk(s, s.calls[k]);
  }

  lemma StepKeepsInv(c: Crypto, s: State, step: Step)
    requires Inv(s)
    ensures Inv(Do(c, s, step))
  {
    if Enabled(s, step) {
      match step
      case CheckClock(k, now) => CheckClockKeepsInv(c, s, k, now);
      case ReadRow(k, now) => ReadRowKeepsInv(c, s, k, now);
      case RefreshRow(k) => RefreshRowKeepsInv(c, s, k);
      case StoreEntry(k) => StoreEntryKeepsInv(c, s, k);
      case BeginCall(h) =>
        hide Later, ReadBy, Fresh;
        StepIsLater(c, s, step);
        StepKeepsOld(c, s, Next(c, s, step));
      case Tick(_) =>
        hide Later, EntryOk, CallOk, Fresh;
        StepIsLater(c, s, step);
        StepKeepsOld(c, s, Next(c, s, step));
      case IssueRow(_, _, _) =>
        hide Later, EntryOk, CallOk, Fresh;
        StepIsLater(c, s, step);
        StepKeepsOld(c, s, Next(c, s, step));
      case Commit(_, _) =>
        hide Later, EntryOk, CallOk, Fresh, Changed;
        StepIsLater(c, s, step);
        StepKeepsOld(c, s, Next(c, s, step));
      case Clear =>
        hide Later, EntryOk, CallOk, Fresh;
        StepIsLater(c, s, step);
        StepKeepsOld(c, s, Next(c, s, step));
    }
  }

  lemma {:induction false} RunKeepsInv(c: Crypto, s: State, steps: seq<Step>)
    requires Inv(s)
    ensures Inv(Run(c, s, steps))
    decreases |steps|
  {
    if steps == [] {
    } else {
      hide Do, Inv;
      RunKeepsInv(c, s, steps[..|steps| - 1]);
      StepKeepsInv(c, Run(c, s, steps[..|steps| - 1]), steps[|steps| - 1]);
    }
  }

  /**
   * For every interleaving: no call that starts a TTL or more after a change of a passport was committed is
   * accepted on an older row.
   */
  lemma {:induction false} StalenessIsBounded(c: Crypto, steps: seq<Step>, i: nat, v: nat)
    requires var s := Run(c, START, steps);
      i < |s.accepted| && s.accepted[i].id in s.versions && v < |s.versions[s.accepted[i].id]|
    requires var s := Run(c, START, steps);
      s.accepted[i].startedAt >= s.versions[s.accepted[i].id][v].committedAt + VERIFY_CACHE_TTL
    ensures Run(c, START, steps).accepted[i].version >= v
  {
    hide Run, Inv, Ordered, Past, Fresh;
    var s := Run(c, START, steps);
    StartKeepsInv();
    RunKeepsInv(c, START, steps);
    CommitsInOrder(c, START, steps);
    assert Fresh(s, s.accepted[i]) by { InvGivesFresh(s, i); }
    FreshIsRecent(s, s.accepted[i], v);
  }

  lemma StartKeepsInv()
    ensures Inv(START) && Ordered(START) && Past(START)
  {
  }

  lemma InvGivesFresh(s: State, i: nat)
    requires Inv(s) && i < |s.accepted|
    ensures Fresh(s, s.accepted[i])
  {
    hide Fresh, EntryOk, CallOk;
  }

  lemma FreshIsRecent(s: State, a: Acceptance, v: nat)
    requires Fresh(s, a) && Ordered(s) && v < |s.versions[a.id]|
    requires a.startedAt >= s.versions[a.id][v].committedAt + VERIFY_CACHE_TTL
    ensures a.version >= v
  {
  }

  ghost predicate Ordered(s: State) {
    forall id, v, w :: id in s.versions && 0 <= v < w < |s.versions[id]| ==>
      s.versions[id][v].committedAt <= s.versions[id][w].committedAt <= s.clock
  }

  ghost predicate Past(s: State) {
    forall id, v :: id in s.versions && 0 <= v < |s.versions[id]| ==> s.versions[id][v].committedAt <= s.clock
  }

  lemma {:induction false} CommitsInOrder(c: Crypto, s: State, steps: seq<Step>)
    requires Ordered(s) && Past(s)
    ensures Ordered(Run(c, s, steps)) && Past(Run(c, s, steps))
    decreases |steps|
  {
    if steps == [] {
    } else {
      hide Do, Ordered, Past;
      CommitsInOrder(c, s, steps[..|steps| - 1]);
      StepKeepsOrder(c, Run(c, s, steps[..|steps| - 1]), steps[|steps| - 1]);
    }
  }

  lemma StepKeepsOrder(c: Crypto, s: State, step: Step)
    requires Ordered(s) && Past(s)
    ensures Ordered(Do(c, s, step)) && Past(Do(c, s, step))
  {
    hide Changed, ValidatePassport, Ordered, Past;
    if step.Commit? && Enabled(s, step) {
      CommitKeepsOrder(s, Do(c, s, step), step.id, Changed(c, Current(s, step.id).row, step.change));
    } else if step.IssueRow? && Enabled(s, step) {
      IssueKeepsOrder(s, Do(c, s, step), step.id, step.row);
    } else {
      SameVersionsKeepOrder(s, Do(c, s, step));
    }
  }

  lemma SameVersionsKeepOrder(s: State, t: State)
    requires Ordered(s) && Past(s) && t.versions == s.versions && s.clock <= t.clock
    ensures Ordered(t) && Past(t)
  {
  }

  lemma IssueKeepsOrder(s: State, t: State, id: string, row: Passport)
    requires Ordered(s) && Past(s) && t.versions == s.versions[id := [Version(row, s.clock)]] && t.clock == s.clock
    ensures Ordered(t) && Past(t)
  {
  }

  lemma CommitKeepsOrder(s: State, t: State, id: string, row: Passport)
    requires Ordered(s) && Past(s) && id in s.versions
    requires t.versions == s.versions[id := s.versions[id] + [Version(row, s.clock)]] && t.clock == s.clock
    ensures Ordered(t) && Past(t)
  {
    forall i, v | i in t.versions && 0 <= v < |t.versions[i]|
      ensures t.versions[i][v].committedAt <= t.clock
    {
      if i == id && v == |s.versions[id]| { } else { assert t.versions[i][v] == s.versions[i][v]; }
    }
    forall i, v, w | i in t.versions && 0 <= v < w < |t.versions[i]|
      ensures t.versions[i][v].committedAt <= t.versions[i][w].committedAt <= t.clock
    {
      assert t.versions[i][v] == s.versions[i][v];
      if i == id && w == |s.versions[id]| { } else { assert t.versions[i][w] == s.versions[i][w]; }
    }
  }
}

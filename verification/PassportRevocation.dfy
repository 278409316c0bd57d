/** What a committed change of a passport means for the verifications that start after it. */
module PassportRevocation {
  import opened PassportCache
  import Passports

  // ---------------------------------------------------------------------------
  // Revocation
  // ---------------------------------------------------------------------------

  /** From version v on, every version of the passport is revoked. */
  ghost predicate RevokedFrom(s: State, id: string, v: nat) {
    id in s.versions && v < |s.versions[id]|
    && forall w :: v <= w < |s.versions[id]| ==> s.versions[id][w].row.revokedAt.Some?
  }

  lemma StepKeepsRevoked(c: Passports.Crypto, s: State, step: Step, id: string, v: nat)
    requires RevokedFrom(s, id, v)
    ensures RevokedFrom(Do(c, s, step), id, v)
  {
    hide Passports.ValidatePassport;
  }

  lemma {:induction false} RunKeepsRevoked(c: Passports.Crypto, s: State, steps: seq<Step>, id: string, v: nat)
    requires RevokedFrom(s, id, v)
    ensures RevokedFrom(Run(c, s, steps), id, v)
    decreases |steps|
  {
    if steps == [] {
    } else {
      hide Do;
      RunKeepsRevoked(c, s, steps[..|steps| - 1], id, v);
      StepKeepsRevoked(c, Run(c, s, steps[..|steps| - 1]), steps[|steps| - 1], id, v);
    }
  }

  /** From version v on, every version of the passport is switched off. */
  ghost predicate SwitchedOffFrom(s: State, id: string, v: nat) {
    id in s.versions && v < |s.versions[id]|
    && forall w :: v <= w < |s.versions[id]| ==> s.versions[id][w].row.killSwitch
  }

  lemma StepKeepsSwitchedOff(c: Passports.Crypto, s: State, step: Step, id: string, v: nat)
    requires SwitchedOffFrom(s, id, v) && step != Commit(id, SetSwitch(false))
    ensures SwitchedOffFrom(Do(c, s, step), id, v)
  {
    hide Passports.ValidatePassport;
  }

  lemma {:induction false} RunKeepsSwitchedOff(c: Passports.Crypto, s: State, steps: seq<Step>, id: string, v: nat)
    requires SwitchedOffFrom(s, id, v) && Commit(id, SetSwitch(false)) !in steps
    ensures SwitchedOffFrom(Run(c, s, steps), id, v)
    decreases |steps|
  {
    if steps == [] {
    } else {
      hide Do, SwitchedOffFrom;
      var init, step := steps[..|steps| - 1], steps[|steps| - 1];
      assert step in steps && forall x :: x in init ==> x in steps;
      RunKeepsSwitchedOff(c, s, init, id, v);
      StepKeepsSwitchedOff(c, Run(c, s, init), step, id, v);
    }
  }

  /** From version v on, every version is revoked or switched off. */
  ghost predicate BlockedFrom(s: State, id: string, v: nat) {
    id in s.versions && v < |s.versions[id]|
    && forall w :: v <= w < |s.versions[id]| ==> !Usable(s.versions[id][w].row)
  }

  predicate Usable(row: Passports.Passport) { row.revokedAt.None? && !row.killSwitch }

  predicate CallUsable(call: Call) {
    && (call.Read? ==> Usable(call.row))
    && (call.Refreshed? ==> Usable(call.basis))
  }

  /** No call is ever accepted on a row that is revoked or switched off. */
  ghost predicate AcceptedUsable(s: State) {
    && (forall i :: 0 <= i < |s.accepted| ==> Usable(s.accepted[i].row))
    && (forall k :: 0 <= k < |s.calls| ==> CallUsable(s.calls[k]))
  }

  lemma UnusableIsRefused(c: Passports.Crypto, row: Passports.Passport, now: int)
    ensures Passports.ValidatePassport(c, row, now).Accepted? ==> Usable(row)
  {
    hide Passports.SignatureOk;
  }

  lemma CheckClockKeepsUsable(c: Passports.Crypto, s: State, k: nat, now: int)
    requires AcceptedUsable(s) && Enabled(s, CheckClock(k, now))
    ensures AcceptedUsable(Next(c, s, CheckClock(k, now)))
  {
    hide Passports.ValidatePassport;
    if s.calls[k].cached.Some? { UnusableIsRefused(c, s.calls[k].cached.value.row, now); }
  }

  lemma ReadRowKeepsUsable(c: Passports.Crypto, s: State, k: nat, now: int)
    requires AcceptedUsable(s) && Enabled(s, ReadRow(k, now))
    ensures AcceptedUsable(Next(c, s, ReadRow(k, now)))
  {
    hide Passports.ValidatePassport;
    var h := s.calls[k].h;
    if h in s.credentials && s.credentials[h] in s.versions && s.versions[s.credentials[h]] != [] {
      UnusableIsRefused(c, Current(s, s.credentials[h]).row, now);
    }
  }

  lemma StepKeepsUsable(c: Passports.Crypto, s: State, step: Step)
    requires AcceptedUsable(s)
    ensures AcceptedUsable(Do(c, s, step))
  {
    hide Passports.ValidatePassport, Changed;
    if Enabled(s, step) {
      match step
      case CheckClock(k, now) => CheckClockKeepsUsable(c, s, k, now);
      case ReadRow(k, now) => ReadRowKeepsUsable(c, s, k, now);
      case RefreshRow(k) => assert CallUsable(s.calls[k]);
      case StoreEntry(k) => assert CallUsable(s.calls[k]);
      case _ =>
    }
  }

  lemma {:induction false} RunKeepsUsable(c: Passports.Crypto, steps: seq<Step>)
    ensures AcceptedUsable(Run(c, START, steps))
    decreases |steps|
  {
    if steps != [] {
      hide Do, AcceptedUsable;
      RunKeepsUsable(c, steps[..|steps| - 1]);
      StepKeepsUsable(c, Run(c, START, steps[..|steps| - 1]), steps[|steps| - 1]);
    } else {
      assert AcceptedUsable(START);
    }
  }

  /** A call that starts a TTL or more after a passport was blocked for good is not accepted, on any row, ever. */
  lemma {:induction false} BlockedAfterTtl(c: Passports.Crypto, steps: seq<Step>, id: string, v: nat, i: nat)
    requires BlockedFrom(Run(c, START, steps), id, v)
    requires i < |Run(c, START, steps).accepted| && Run(c, START, steps).accepted[i].id == id
    ensures Run(c, START, steps).accepted[i].startedAt
          < Run(c, START, steps).versions[id][v].committedAt + Passports.VERIFY_CACHE_TTL
  {
    hide Run, Inv;
    var s := Run(c, START, steps);
    StartKeepsInv();
    RunKeepsInv(c, START, steps);
    RunKeepsUsable(c, steps);
    InvGivesFresh(s, i);
    assert s.accepted[i].row == s.versions[id][s.accepted[i].version].row;
    if s.accepted[i].startedAt >= s.versions[id][v].committedAt + Passports.VERIFY_CACHE_TTL {
      StalenessIsBounded(c, steps, i, v);
    }
  }

  lemma {:induction false} RunConcat(c: Passports.Crypto, s: State, before: seq<Step>, after: seq<Step>)
    ensures Run(c, s, before + after) == Run(c, Run(c, s, before), after)
    decreases |after|
  {
    hide Do;
    if after == [] {
      assert before + after == before;
    } else {
      assert (before + after)[..|before + after| - 1] == before + after[..|after| - 1];
      RunConcat(c, s, before, after[..|after| - 1]);
    }
  }

  lemma {:induction false} VersionsStay(c: Passports.Crypto, s: State, steps: seq<Step>, id: string)
    requires id in s.versions
    ensures id in Run(c, s, steps).versions && s.versions[id] <= Run(c, s, steps).versions[id]
    decreases |steps|
  {
    if steps == [] {
    } else {
      hide Next;
      var t, step := Run(c, s, steps[..|steps| - 1]), steps[|steps| - 1];
      VersionsStay(c, s, steps[..|steps| - 1], id);
      if Enabled(t, step) { StepIsLater(c, t, step); }
    }
  }

  /** After a change is committed, whatever runs before and after it: a TTL later its row or a newer one decides. */
  lemma {:induction false} CommitBoundsStaleness(c: Passports.Crypto, before: seq<Step>, id: string, change: Change,
                                                 after: seq<Step>, i: nat)
    requires Enabled(Run(c, START, before), Commit(id, change))
    requires var s := Run(c, Do(c, Run(c, START, before), Commit(id, change)), after);
      && i < |s.accepted| && s.accepted[i].id == id
      && s.accepted[i].startedAt >= Run(c, START, before).clock + Passports.VERIFY_CACHE_TTL
    ensures var s := Run(c, Do(c, Run(c, START, before), Commit(id, change)), after);
      s.accepted[i].version >= |Run(c, START, before).versions[id]|
  {
    var mid := Run(c, START, before);
    var next := Do(c, mid, Commit(id, change));
    CommitIsRun(c, before, Commit(id, change), after);
    VersionsStay(c, next, after, id);
    assert |next.versions[id]| == |mid.versions[id]| + 1
        && next.versions[id][|mid.versions[id]|].committedAt == mid.clock by { CommitAdds(c, mid, id, change); }
    hide Run, Do;
    StalenessIsBounded(c, before + [Commit(id, change)] + after, i, |mid.versions[id]|);
  }

  lemma CommitIsRun(c: Passports.Crypto, before: seq<Step>, step: Step, after: seq<Step>)
    ensures Run(c, START, before + [step] + after) == Run(c, Do(c, Run(c, START, before), step), after)
  {
    hide Do;
    RunConcat(c, START, before + [step], after);
    assert (before + [step])[..|before|] == before;
  }

  lemma CommitAdds(c: Passports.Crypto, s: State, id: string, change: Change)
    requires Enabled(s, Commit(id, change))
    ensures var t := Do(c, s, Commit(id, change));
      id in t.versions
      && t.versions[id] == s.versions[id] + [Version(Changed(c, Current(s, id).row, change), s.clock)]
  {
    hide Changed;
  }

  /** Once a revocation is committed, no call that starts a TTL or more later is accepted, on any row, ever. */
  lemma {:induction false} RevocationTakesEffect(c: Passports.Crypto, before: seq<Step>, id: string, change: Change,
                                                 after: seq<Step>, i: nat)
    requires Enabled(Run(c, START, before), Commit(id, change)) && change.RevokeRow?
    requires var s := Run(c, Do(c, Run(c, START, before), Commit(id, change)), after);
      i < |s.accepted| && s.accepted[i].id == id
    ensures var s := Run(c, Do(c, Run(c, START, before), Commit(id, change)), after);
      s.accepted[i].startedAt < Run(c, START, before).clock + Passports.VERIFY_CACHE_TTL
  {
    var mid := Run(c, START, before);
    var v := |mid.versions[id]|;
    var next := Do(c, mid, Commit(id, change));
    CommitIsRun(c, before, Commit(id, change), after);
    VersionsStay(c, next, after, id);
    CommitAdds(c, mid, id, change);
    assert RevokedFrom(next, id, v) by { RevokingRevokes(c, Current(mid, id).row, change); }
    hide Run, Do;
    RunKeepsRevoked(c, next, after, id, v);
    BlockedAfterTtl(c, before + [Commit(id, change)] + after, id, v, i);
  }

  /** Once the switch is thrown and until it is undone, no call that starts a TTL or more later is accepted. */
  lemma {:induction false} SwitchTakesEffect(c: Passports.Crypto, before: seq<Step>, id: string, after: seq<Step>,
                                             i: nat)
    requires Enabled(Run(c, START, before), Commit(id, SetSwitch(true)))
    requires Commit(id, SetSwitch(false)) !in after
    requires var s := Run(c, Do(c, Run(c, START, before), Commit(id, SetSwitch(true))), after);
      i < |s.accepted| && s.accepted[i].id == id
    ensures var s := Run(c, Do(c, Run(c, START, before), Commit(id, SetSwitch(true))), after);
      s.accepted[i].startedAt < Run(c, START, before).clock + Passports.VERIFY_CACHE_TTL
  {
    var mid := Run(c, START, before);
    var v := |mid.versions[id]|;
    var next := Do(c, mid, Commit(id, SetSwitch(true)));
    CommitIsRun(c, before, Commit(id, SetSwitch(true)), after);
    VersionsStay(c, next, after, id);
    CommitAdds(c, mid, id, SetSwitch(true));
    assert SwitchedOffFrom(next, id, v) by { SwitchingSwitches(c, Current(mid, id).row); }
    hide Run, Do;
    RunKeepsSwitchedOff(c, next, after, id, v);
    BlockedAfterTtl(c, before + [Commit(id, SetSwitch(true))] + after, id, v, i);
  }

  lemma SwitchingSwitches(c: Passports.Crypto, row: Passports.Passport)
    ensures Changed(c, row, SetSwitch(true)).killSwitch
  {
  }

  lemma RevokingRevokes(c: Passports.Crypto, row: Passports.Passport, change: Change)
    requires change.RevokeRow?
    ensures Changed(c, row, change).revokedAt.Some?
  {
  }

  // ---------------------------------------------------------------------------
  // Without a straggler, staleness ends with the clearing of the cache
  // ---------------------------------------------------------------------------

  /** No cache entry and no unfinished call holds a row of the passport older than version v. */
  ghost predicate NoneOlder(s: State, id: string, v: nat) {
    && id in s.versions && v < |s.versions[id]|
    && (forall h :: h in s.cache && s.cache[h].id == id ==> s.cache[h].version >= v)
    && (forall k :: 0 <= k < |s.calls| ==> HoldsNoOlder(s.calls[k], id, v))
  }

  ghost predicate HoldsNoOlder(call: Call, id: string, v: nat) {
    && (call.Looked? && call.cached.Some? && call.cached.value.id == id ==> call.cached.value.version >= v)
    && (call.Read? && call.id == id ==> call.version >= v)
    && (call.Refreshed? && call.id == id ==> call.validated >= v && call.version >= v)
  }

  /** Clearing after the commit leaves nothing older once the calls that hold older rows have finished. */
  lemma ClearLeavesNoneOlder(c: Passports.Crypto, s: State, id: string, v: nat)
    requires id in s.versions && v < |s.versions[id]|
    requires forall k :: 0 <= k < |s.calls| ==> HoldsNoOlder(s.calls[k], id, v)
    ensures NoneOlder(Do(c, s, Clear), id, v)
  {
  }

  /** What a step accepts of the passport rests on version v or a newer one. */
  ghost predicate OnlyNewer(s: State, t: State, id: string, v: nat) {
    && s.accepted <= t.accepted
    && forall i :: |s.accepted| <= i < |t.accepted| && t.accepted[i].id == id ==> t.accepted[i].version >= v
  }

  lemma CallStepKeepsNoneOlder(c: Passports.Crypto, s: State, step: Step, id: string, v: nat)
    requires NoneOlder(s, id, v) && Enabled(s, step)
    requires step.CheckClock? || step.ReadRow? || step.RefreshRow? || step.StoreEntry?
    ensures NoneOlder(Next(c, s, step), id, v) && OnlyNewer(s, Next(c, s, step), id, v)
  {
    hide Passports.ValidatePassport;
    match step
    case CheckClock(k, _) => assert HoldsNoOlder(s.calls[k], id, v);
    case ReadRow(k, _) => assert HoldsNoOlder(s.calls[k], id, v);
    case RefreshRow(k) => assert HoldsNoOlder(s.calls[k], id, v);
    case StoreEntry(k) => assert HoldsNoOlder(s.calls[k], id, v);
  }

  lemma StepKeepsNoneOlder(c: Passports.Crypto, s: State, step: Step, id: string, v: nat)
    requires NoneOlder(s, id, v)
    ensures NoneOlder(Do(c, s, step), id, v) && OnlyNewer(s, Do(c, s, step), id, v)
  {
    hide Passports.ValidatePassport, Changed;
    if Enabled(s, step) {
      if step.CheckClock? || step.ReadRow? || step.RefreshRow? || step.StoreEntry? {
        hide Next, NoneOlder, OnlyNewer;
        CallStepKeepsNoneOlder(c, s, step, id, v);
      }
    }
  }

  /** From then on every acceptance of the passport rests on version v or a newer one. */
  lemma {:induction false} NoneOlderStays(c: Passports.Crypto, s: State, steps: seq<Step>, id: string, v: nat)
    requires NoneOlder(s, id, v)
    ensures NoneOlder(Run(c, s, steps), id, v)
    ensures s.accepted <= Run(c, s, steps).accepted
    ensures forall i :: |s.accepted| <= i < |Run(c, s, steps).accepted| && Run(c, s, steps).accepted[i].id == id ==>
      Run(c, s, steps).accepted[i].version >= v
    decreases |steps|
  {
    if steps == [] {
    } else {
      hide Do, NoneOlder;
      NoneOlderStays(c, s, steps[..|steps| - 1], id, v);
      StepKeepsNoneOlder(c, Run(c, s, steps[..|steps| - 1]), steps[|steps| - 1], id, v);
    }
  }
}

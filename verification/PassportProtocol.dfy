/** Run without interruption, the steps of the passport protocol are the calls of the service. */
module PassportProtocol {
  import opened Prelude
  import Passports
  import opened PassportCache

  type Crypto = Passports.Crypto

  ghost predicate RowsShown(s: State, passports: map<string, Passports.Passport>) {
    && s.versions.Keys == passports.Keys
    && (forall id :: id in s.versions ==> s.versions[id] != [] && Current(s, id).row == passports[id])
  }

  ghost predicate CredentialsShown(s: State, credentials: map<string, Passports.Credential>) {
    && s.credentials.Keys == credentials.Keys
    && (forall h :: h in s.credentials ==> s.credentials[h] == credentials[h].passportId)
  }

  ghost predicate CacheShown(s: State, cache: map<string, Passports.Entry>) {
    && s.cache.Keys == cache.Keys
    && (forall h :: h in s.cache ==> s.cache[h].expiry == cache[h].expiry && s.cache[h].row == cache[h].row)
  }

  /** The newest versions, the credentials and the cache are those of the desk. */
  ghost predicate Shows(s: State, d: Passports.Desk) {
    RowsShown(s, d.db.passports) && CredentialsShown(s, d.db.credentials) && CacheShown(s, d.cache)
  }

  /** The steps of one verification, one right after the other; those that are not enabled do nothing. */
  function Uninterrupted(c: Crypto, s: State, h: string, now: int): State {
    var k := |s.calls|;
    var checked := Do(c, Do(c, s, BeginCall(h)), CheckClock(k, now));
    Do(c, Do(c, Do(c, checked, ReadRow(k, now)), RefreshRow(k)), StoreEntry(k))
  }

  /** What a call leaves behind: one finished call, and its acceptance if there was one. */
  ghost predicate Answered(s: State, t: State, r: Passports.Result) {
    && t.clock == s.clock && t.versions == s.versions && t.credentials == s.credentials
    && t.calls == s.calls + [Finished]
    && match r
       case Refused(_) => t.accepted == s.accepted
       case Accepted(row) =>
         && |t.accepted| == |s.accepted| + 1 && t.accepted[..|s.accepted|] == s.accepted
         && var a := t.accepted[|s.accepted|];
            a.startedAt == s.clock && a.row == row && a.returned == row
  }

  lemma FinishedStays(c: Crypto, s: State, k: nat, now: int)
    requires k < |s.calls| && s.calls[k].Finished?
    ensures Do(c, Do(c, Do(c, s, ReadRow(k, now)), RefreshRow(k)), StoreEntry(k)) == s
  {
  }

  /** A live entry is validated as it stands. */
  lemma Hit(c: Crypto, s: State, h: string, now: int)
    requires h in s.cache && s.cache[h].expiry > s.clock
    ensures Uninterrupted(c, s, h, now).cache == s.cache
    ensures Answered(s, Uninterrupted(c, s, h, now), Passports.ValidatePassport(c, s.cache[h].row, now))
  {
    hide Passports.ValidatePassport;
    var k := |s.calls|;
    var begun := Do(c, s, BeginCall(h));
    assert begun.calls[k] == Looked(s.clock, h, Some(s.cache[h]));
    var checked := Do(c, begun, CheckClock(k, now));
    assert checked.calls == s.calls + [Finished];
    FinishedStays(c, checked, k, now);
    Passports.AcceptedIsRow(c, s.cache[h].row, now);
    assert checked.accepted[..|s.accepted|] == s.accepted;
  }

  lemma MissedLook(c: Crypto, s: State, h: string, now: int)
    requires !(h in s.cache && s.cache[h].expiry > s.clock)
    ensures Do(c, Do(c, s, BeginCall(h)), CheckClock(|s.calls|, now))
         == s.(calls := s.calls + [Missed(s.clock, h, s.clock)])
  {
    hide Passports.ValidatePassport;
    var k := |s.calls|;
    var begun := Do(c, s, BeginCall(h));
    assert begun.calls[k] == Looked(s.clock, h, if h in s.cache then Some(s.cache[h]) else None);
    assert begun.calls[k := Missed(s.clock, h, s.clock)] == s.calls + [Missed(s.clock, h, s.clock)];
  }

  /** Without a row, or with one that is refused, the call ends. */
  lemma MissRefused(c: Crypto, s: State, h: string, now: int, e: Passports.Error)
    requires !(h in s.cache && s.cache[h].expiry > s.clock)
    requires h in s.credentials && s.credentials[h] in s.versions && s.versions[s.credentials[h]] != [] ==>
      Passports.ValidatePassport(c, Current(s, s.credentials[h]).row, now).Refused?
    ensures Uninterrupted(c, s, h, now).cache == s.cache
    ensures Answered(s, Uninterrupted(c, s, h, now), Passports.Refused(e))
  {
    hide Passports.ValidatePassport;
    var k := |s.calls|;
    MissedLook(c, s, h, now);
    var missed := s.(calls := s.calls + [Missed(s.clock, h, s.clock)]);
    var read := Do(c, missed, ReadRow(k, now));
    assert missed.calls[k := Finished] == s.calls + [Finished];
    assert read == s.(calls := s.calls + [Finished]);
  }

  /** A row that is accepted is read again, cached for a minute, and returned. */
  lemma MissAccepted(c: Crypto, s: State, h: string, now: int)
    requires !(h in s.cache && s.cache[h].expiry > s.clock)
    requires h in s.credentials && s.credentials[h] in s.versions && s.versions[s.credentials[h]] != []
    requires Passports.ValidatePassport(c, Current(s, s.credentials[h]).row, now).Accepted?
    ensures var t, row := Uninterrupted(c, s, h, now), Current(s, s.credentials[h]).row;
      && Answered(s, t, Passports.Accepted(row)) && h in t.cache && t.cache == s.cache[h := t.cache[h]]
      && t.cache[h].row == row && t.cache[h].expiry == s.clock + 60 * 1_000_000
  {
    hide Passports.ValidatePassport;
    var k, id := |s.calls|, s.credentials[h];
    var row, v := Current(s, id).row, |s.versions[id]| - 1;
    MissedLook(c, s, h, now);
    var missed := s.(calls := s.calls + [Missed(s.clock, h, s.clock)]);
    var read := Do(c, missed, ReadRow(k, now));
    assert read == s.(calls := s.calls + [PassportCache.Read(s.clock, h, s.clock, id, v, row)]);
    var refreshed := Do(c, read, RefreshRow(k));
    assert refreshed == s.(calls := s.calls + [Refreshed(s.clock, h, s.clock, id, v, row, v, row)]);
    hide Do, Current;
    StoredAndAnswered(c, s, h, id, v, row);
  }

  lemma StoredAndAnswered(c: Crypto, s: State, h: string, id: string, v: nat, row: Passports.Passport)
    ensures var refreshed := s.(calls := s.calls + [Refreshed(s.clock, h, s.clock, id, v, row, v, row)]);
      var t := Do(c, refreshed, StoreEntry(|s.calls|));
      && Answered(s, t, Passports.Accepted(row)) && h in t.cache && t.cache == s.cache[h := t.cache[h]]
      && t.cache[h].row == row && t.cache[h].expiry == s.clock + 60 * 1_000_000
  {
    var refreshed := s.(calls := s.calls + [Refreshed(s.clock, h, s.clock, id, v, row, v, row)]);
    var t := Do(c, refreshed, StoreEntry(|s.calls|));
    assert t.calls == s.calls + [Finished];
    assert t.accepted[..|s.accepted|] == s.accepted;
  }

  lemma ShowsAt(s: State, d: Passports.Desk, h: string)
    requires Shows(s, d)
    ensures h in s.cache <==> h in d.cache
    ensures h in s.cache ==> s.cache[h].expiry == d.cache[h].expiry && s.cache[h].row == d.cache[h].row
    ensures h in s.credentials <==> h in d.db.credentials
    ensures h in s.credentials ==>
      var id := s.credentials[h];
      && id == d.db.credentials[h].passportId && (id in s.versions <==> id in d.db.passports)
      && (id in s.versions ==> s.versions[id] != [] && Current(s, id).row == d.db.passports[id])
  {
  }

  /** A verification that nothing interrupts answers as the service does, and leaves its cache. */
  lemma UninterruptedCallIsVerify(c: Crypto, s: State, d: Passports.Desk, token: string, production: bool, now: int)
    requires Shows(s, d) && !Passports.Barred(token, production)
    ensures var t := Uninterrupted(c, s, c.tokenHash(token), now);
      var (after, r) := Passports.Verify(c, d, token, production, now, s.clock);
      Shows(t, after) && Answered(s, t, r)
  {
    hide Passports.ValidatePassport, Uninterrupted, Answered, Shows, Current;
    var h := c.tokenHash(token);
    ShowsAt(s, d, h);
    if h in s.cache && s.cache[h].expiry > s.clock {
      Hit(c, s, h, now);
      SameShows(s, Uninterrupted(c, s, h, now), d, Passports.ValidatePassport(c, s.cache[h].row, now));
    } else {
      var r := Passports.Lookup(c, d.db, token, production, now);
      if r.Refused? {
        MissRefused(c, s, h, now, r.error);
        SameShows(s, Uninterrupted(c, s, h, now), d, r);
      } else {
        Passports.ValidateGivesRow(c, d, token, production, now);
        Passports.AcceptedIsRow(c, Current(s, s.credentials[h]).row, now);
        MissAccepted(c, s, h, now);
        CachedShows(s, Uninterrupted(c, s, h, now), d, h, r, now);
      }
    }
  }

  lemma SameShows(s: State, t: State, d: Passports.Desk, r: Passports.Result)
    requires Shows(s, d) && Answered(s, t, r) && t.cache == s.cache
    ensures Shows(t, d)
  {
  }

  lemma CachedShows(s: State, t: State, d: Passports.Desk, h: string, r: Passports.Result, now: int)
    requires Shows(s, d) && Answered(s, t, r) && h in d.db.credentials && r.Accepted?
    requires h in t.cache && t.cache == s.cache[h := t.cache[h]]
    requires t.cache[h].row == r.row && t.cache[h].expiry == s.clock + 60 * 1_000_000
    ensures Shows(t, Passports.Desk(
      d.db.(credentials := d.db.credentials[h := Passports.Presented(d.db.credentials[h], now)]),
      d.cache[h := Passports.Entry(s.clock + Passports.VERIFY_CACHE_TTL, r.row)]))
  {
  }

  /** A change that is committed and followed at once by the clearing of the cache is the service's call. */
  lemma UninterruptedChange(c: Crypto, s: State, d: Passports.Desk, id: string, change: Change)
    requires Shows(s, d)
    ensures var t := Do(c, Do(c, s, Commit(id, change)), Clear);
      id in d.db.passports ==>
        Shows(t, match change
                 case RevokeRow(reason, now) => Passports.Revoke(c, d, id, reason, now)
                 case SetSwitch(enabled) => Passports.ToggleKillSwitch(c, d, id, enabled))
  {
    if id in d.db.passports {
      var row := Changed(c, d.db.passports[id], change);
      ShowsRow(s, d, id);
      ChangedShows(s, d, id, row);
      hide Shows, Passports.RevokedRow, Passports.ToggledRow, Current;
    }
  }

  lemma ShowsRow(s: State, d: Passports.Desk, id: string)
    requires Shows(s, d) && id in d.db.passports
    ensures id in s.versions && s.versions[id] != [] && Current(s, id).row == d.db.passports[id]
  {
  }

  lemma ChangedShows(s: State, d: Passports.Desk, id: string, row: Passports.Passport)
    requires Shows(s, d) && id in d.db.passports
    ensures id in s.versions && Shows(
      s.(versions := s.versions[id := s.versions[id] + [Version(row, s.clock)]], cache := map[]),
      Passports.Desk(d.db.(passports := d.db.passports[id := row]), map[]))
  {
    var t := s.(versions := s.versions[id := s.versions[id] + [Version(row, s.clock)]], cache := map[]);
    forall i | i in t.versions
      ensures t.versions[i] != [] && Current(t, i).row == if i == id then row else d.db.passports[i]
    {
      if i != id { ShowsRow(s, d, i); assert Current(t, i) == Current(s, i); }
    }
  }

  /** So is an issue of a new row under a new credential. */
  lemma UninterruptedIssue(c: Crypto, s: State, d: Passports.Desk, r: Passports.Request, now: int)
    requires Shows(s, d) && Passports.Issuable(c, d, r)
    ensures Shows(
      Do(c, Do(c, s, IssueRow(r.passportId, c.tokenHash(r.token), Passports.NewPassport(c, r, now))), Clear),
      Passports.Issue(c, d, r, now))
  {
    IssuedShows(s, d, r.passportId, c.tokenHash(r.token), Passports.NewPassport(c, r, now));
    hide Shows, Passports.NewPassport;
    assert r.passportId !in s.versions && c.tokenHash(r.token) !in s.credentials;
  }

  lemma IssuedShows(s: State, d: Passports.Desk, id: string, h: string, row: Passports.Passport)
    requires Shows(s, d) && id !in d.db.passports && h !in d.db.credentials
    ensures id !in s.versions && h !in s.credentials
    ensures Shows(
      s.(versions := s.versions[id := [Version(row, s.clock)]], credentials := s.credentials[h := id], cache := map[]),
      Passports.Desk(Passports.Db(d.db.passports[id := row],
                                  d.db.credentials[h := Passports.Credential(id, 0, None)]), map[]))
  {
    var t := s.(versions := s.versions[id := [Version(row, s.clock)]], credentials := s.credentials[h := id],
                cache := map[]);
    assert RowsShown(t, d.db.passports[id := row]) by { IssuedRows(s, t, d, id, row); }
    assert CredentialsShown(t, d.db.credentials[h := Passports.Credential(id, 0, None)]) by { hide RowsShown; }
    assert id !in s.versions by { ShowsKeys(s, d); }
    hide RowsShown, CredentialsShown;
    assert h !in s.credentials by { ShowsKeys(s, d); }
  }

  lemma ShowsKeys(s: State, d: Passports.Desk)
    requires Shows(s, d)
    ensures s.versions.Keys == d.db.passports.Keys && s.credentials.Keys == d.db.credentials.Keys
  {
  }

  lemma IssuedRows(s: State, t: State, d: Passports.Desk, id: string, row: Passports.Passport)
    requires RowsShown(s, d.db.passports) && t.versions == s.versions[id := [Version(row, s.clock)]]
    ensures RowsShown(t, d.db.passports[id := row])
  {
    forall i | i in t.versions
      ensures t.versions[i] != [] && Current(t, i).row == if i == id then row else d.db.passports[i]
    {
      if i != id { assert Current(t, i) == Current(s, i); }
    }
  }
}

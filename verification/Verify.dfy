/** Judging a stored ledger: the signature check, the chain walk, and what one hash pins. */
module Verify {
  import opened Prelude
  import opened Receipts

  datatype SignatureResult = SignatureResult(verified: bool, reason: string)

  function VerifyReceiptSignature(c: Crypto, r: Receipt, key: Key): SignatureResult {
    if r.signingScheme != "ed25519" then
      SignatureResult(false, "unsupported signing scheme: " + r.signingScheme)
    else
      match c.decode(r.signature)
      case None => SignatureResult(false, "signature is not valid base64")
      case Some(signature) =>
        if |signature| != SIGNATURE_LENGTH then SignatureResult(false, "signature is not 64 bytes")
        else if !c.verify(SigningPayload(r), signature, key) then
          SignatureResult(false, "signature verification failed")
        else SignatureResult(true, "verified")
  }

  datatype Verdict =
    | Verdict(verified: bool, chainVerified: bool, signatureVerified: bool, reason: string, signatureReason: string)
    | NotFound

  // ---------------------------------------------------------------------------
  // The chain, declaratively; `rows` is the ordered listing of the table
  // ---------------------------------------------------------------------------

  predicate Linked(rows: seq<Receipt>, i: nat)
    requires i < |rows|
  {
    rows[i].prevHash == if i == 0 then None else Some(rows[i - 1].thisHash)
  }

  /** The two checks made on a single row: its own hash, and its signature. */
  datatype Checks = Checks(hashed: Receipt -> bool, signature: Receipt -> SignatureResult)

  function RowChecks(c: Crypto, key: Key): Checks {
    Checks(r => ComputeHash(c, r) == r.thisHash, r => VerifyReceiptSignature(c, r, key))
  }

  predicate Signed(c: Checks, r: Receipt) { c.signature(r).verified }

  /** The first n rows link and hash. */
  ghost predicate SoundTo(c: Checks, rows: seq<Receipt>, n: nat)
    requires n <= |rows|
  {
    forall i {:trigger Linked(rows, i)} :: 0 <= i < n ==> Linked(rows, i) && c.hashed(rows[i])
  }

  ghost predicate SignedTo(c: Checks, rows: seq<Receipt>, n: nat)
    requires n <= |rows|
  {
    forall i :: 0 <= i < n ==> Signed(c, rows[i])
  }

  /** `reason` is the one given for the last bad signature among the first n rows, if there is one. */
  ghost predicate SignatureReason(c: Checks, rows: seq<Receipt>, n: nat, reason: string)
    requires n <= |rows|
  {
    && (SignedTo(c, rows, n) ==> reason == "verified")
    && (!SignedTo(c, rows, n) ==>
          exists i :: 0 <= i < n && !Signed(c, rows[i])
                      && reason == c.signature(rows[i]).reason
                      && forall k :: i < k < n ==> Signed(c, rows[k]))
  }

  /** The first row with the id asked for is row t. */
  predicate Target(rows: seq<Receipt>, id: string, t: nat) {
    t < |rows| && rows[t].id == id && Unnamed(rows, id, t)
  }

  predicate Unnamed(rows: seq<Receipt>, id: string, n: nat)
    requires n <= |rows|
  {
    forall i :: 0 <= i < n ==> rows[i].id != id
  }

  /** The first row that fails to link or to hash is row k. */
  ghost predicate Break(c: Checks, rows: seq<Receipt>, k: nat) {
    k < |rows| && SoundTo(c, rows, k) && !(Linked(rows, k) && c.hashed(rows[k]))
  }

  /** The verdict on row t of a chain that is sound up to and including it. */
  ghost predicate FoundAt(c: Checks, rows: seq<Receipt>, t: nat, v: Verdict)
    requires t < |rows|
  {
    && v.Verdict?
    && (v.verified <==> SignedTo(c, rows, t + 1))
    && v.chainVerified == v.verified && v.signatureVerified == v.verified
    && v.reason == v.signatureReason
    && SignatureReason(c, rows, t + 1, v.signatureReason)
  }

  /** The verdict when the walk stops at the broken row k. */
  ghost predicate BrokenAt(c: Checks, rows: seq<Receipt>, k: nat, v: Verdict)
    requires k < |rows|
  {
    && v.Verdict? && !v.verified && !v.chainVerified
    && (!Linked(rows, k) ==>
          v.reason == "prev_hash mismatch" && !v.signatureVerified
          && SignatureReason(c, rows, k, v.signatureReason))
    && (Linked(rows, k) ==>
          v.reason == "receipt hash mismatch" && (v.signatureVerified <==> SignedTo(c, rows, k + 1))
          && SignatureReason(c, rows, k + 1, v.signatureReason))
  }

  /** Everything the walk promises: whichever comes first, the row asked for or a broken row, decides. */
  ghost predicate Judges(c: Checks, rows: seq<Receipt>, id: string, v: Verdict) {
    && (forall t: nat :: Target(rows, id, t) && SoundTo(c, rows, t + 1) ==> FoundAt(c, rows, t, v))
    && (forall k: nat :: Break(c, rows, k) && Unnamed(rows, id, k) ==> BrokenAt(c, rows, k, v))
    && (Unnamed(rows, id, |rows|) && SoundTo(c, rows, |rows|) ==> v == NotFound)
  }

  // ---------------------------------------------------------------------------
  // The walk
  // ---------------------------------------------------------------------------

  method VerifyReceiptChain(c: Crypto, table: seq<Receipt>, id: string, key: Key) returns (v: Verdict)
    ensures Judges(RowChecks(c, key), Ordered(table), id, v)
  {
    v := WalkChain(RowChecks(c, key), Ordered(table), id);
  }

  method WalkChain(checks: Checks, rows: seq<Receipt>, id: string) returns (v: Verdict)
    ensures Judges(checks, rows, id, v)
  {
    hide Judges, SoundTo, SignedTo, SignatureReason;
    StartOfChain(checks, rows);
    var previousHash: Option<string> := None;
    var signatureVerified := true;
    var signatureReason := "verified";
    for i := 0 to |rows|
      invariant previousHash == if i == 0 then None else Some(rows[i - 1].thisHash)
      invariant signatureVerified <==> SignedTo(checks, rows, i)
      invariant SignatureReason(checks, rows, i, signatureReason)
      invariant SoundTo(checks, rows, i) && Unnamed(rows, id, i)
    {
      var row := rows[i];
      OneMoreRow(checks, rows, i);
      OneMoreSignature(checks, rows, i, signatureReason);
      if row.prevHash != previousHash {
        v := Verdict(false, false, false, "prev_hash mismatch", signatureReason);
        StopAtBreak(checks, rows, id, i, v);
        return v;
      }
      var sigResult := checks.signature(row);
      if !sigResult.verified {
        signatureVerified := false;
        signatureReason := sigResult.reason;
      }
      if !checks.hashed(row) {
        v := Verdict(false, false, signatureVerified, "receipt hash mismatch", signatureReason);
        StopAtBreak(checks, rows, id, i, v);
        return v;
      }
      previousHash := Some(row.thisHash);
      if row.id == id {
        v := Verdict(signatureVerified, signatureVerified, signatureVerified,
                     if signatureVerified then "verified" else signatureReason, signatureReason);
        StopAtTarget(checks, rows, id, i, v);
        return v;
      }
    }
    EndOfChain(checks, rows, id);
    return NotFound;
  }

  lemma StartOfChain(c: Checks, rows: seq<Receipt>)
    ensures SoundTo(c, rows, 0) && SignedTo(c, rows, 0) && SignatureReason(c, rows, 0, "verified")
  {
  }

  lemma OneMoreRow(c: Checks, rows: seq<Receipt>, i: nat)
    requires i < |rows|
    ensures SoundTo(c, rows, i + 1) <==> SoundTo(c, rows, i) && Linked(rows, i) && c.hashed(rows[i])
  {
    if SoundTo(c, rows, i + 1) {
      assert Linked(rows, i);
      assert SoundTo(c, rows, i);
    }
    if SoundTo(c, rows, i) && Linked(rows, i) && c.hashed(rows[i]) {
      assert SoundTo(c, rows, i + 1);
    }
  }

  lemma EndOfChain(c: Checks, rows: seq<Receipt>, id: string)
    requires Unnamed(rows, id, |rows|) && SoundTo(c, rows, |rows|)
    ensures Judges(c, rows, id, NotFound)
  {
    hide SoundTo;
    forall k: nat | k < |rows| ensures !Break(c, rows, k) {
      SoundShorter(c, rows, k + 1, |rows|);
      OneMoreRow(c, rows, k);
    }
  }

  lemma SoundShorter(c: Checks, rows: seq<Receipt>, n: nat, m: nat)
    requires n <= m <= |rows| && SoundTo(c, rows, m)
    ensures SoundTo(c, rows, n)
  {
  }

  lemma OneMoreSignature(c: Checks, rows: seq<Receipt>, i: nat, reason: string)
    requires i < |rows| && SignatureReason(c, rows, i, reason)
    ensures SignedTo(c, rows, i + 1) <==> SignedTo(c, rows, i) && Signed(c, rows[i])
    ensures SignatureReason(c, rows, i + 1,
              if Signed(c, rows[i]) then reason else c.signature(rows[i]).reason)
  {
  }

  lemma StopAtBreak(c: Checks, rows: seq<Receipt>, id: string, i: nat, v: Verdict)
    requires Break(c, rows, i) && Unnamed(rows, id, i) && BrokenAt(c, rows, i, v)
    ensures Judges(c, rows, id, v)
  {
    assert forall t: nat :: Target(rows, id, t) ==> t >= i;
    assert !(Linked(rows, i) && c.hashed(rows[i]));
    assert forall t: nat :: Target(rows, id, t) ==> !SoundTo(c, rows, t + 1);
    forall k: nat | Break(c, rows, k) && Unnamed(rows, id, k) ensures BrokenAt(c, rows, k, v) {
      assert k == i;
    }
  }

  lemma StopAtTarget(c: Checks, rows: seq<Receipt>, id: string, i: nat, v: Verdict)
    requires Target(rows, id, i) && SoundTo(c, rows, i + 1) && FoundAt(c, rows, i, v)
    ensures Judges(c, rows, id, v)
  {
    assert rows[i].id == id;
    assert forall k: nat :: k <= i ==> !Break(c, rows, k);
    assert forall k: nat :: k < |rows| && Unnamed(rows, id, k) ==> k <= i;
  }

  // ---------------------------------------------------------------------------
  // When a receipt is accepted
  // ---------------------------------------------------------------------------

  /** The row exists and every row up to it links, hashes and carries a good signature. */
  ghost predicate Accepted(c: Checks, rows: seq<Receipt>, id: string) {
    exists t: nat :: Target(rows, id, t) && SoundTo(c, rows, t + 1) && SignedTo(c, rows, t + 1)
  }

  lemma {:induction false} FirstBreak(c: Checks, rows: seq<Receipt>, n: nat) returns (k: nat)
    requires n <= |rows| && !SoundTo(c, rows, n)
    ensures k < n && Break(c, rows, k)
  {
    k := 0;
    while Linked(rows, k) && c.hashed(rows[k])
      invariant k < n && SoundTo(c, rows, k)
      decreases n - k
    {
      OneMoreRow(c, rows, k);
      k := k + 1;
    }
  }

  lemma {:induction false} FirstNamed(rows: seq<Receipt>, id: string, n: nat) returns (t: nat)
    requires n <= |rows| && !Unnamed(rows, id, n)
    ensures t < n && Target(rows, id, t)
  {
    t := 0;
    while rows[t].id != id
      invariant t < n && Unnamed(rows, id, t)
      decreases n - t
    {
      t := t + 1;
    }
  }

  /** `verified` is reported exactly for the accepted receipts. */
  lemma VerifiedExactlyWhenAccepted(c: Checks, rows: seq<Receipt>, id: string, v: Verdict)
    requires Judges(c, rows, id, v)
    ensures v.Verdict? && v.verified <==> Accepted(c, rows, id)
  {
    if Accepted(c, rows, id) {
      var t: nat :| Target(rows, id, t) && SoundTo(c, rows, t + 1) && SignedTo(c, rows, t + 1);
      assert FoundAt(c, rows, t, v);
    } else if Unnamed(rows, id, |rows|) {
      if !SoundTo(c, rows, |rows|) {
        var k := FirstBreak(c, rows, |rows|);
        assert BrokenAt(c, rows, k, v);
      }
    } else {
      var t := FirstNamed(rows, id, |rows|);
      if SoundTo(c, rows, t + 1) {
        assert FoundAt(c, rows, t, v);
      } else {
        var k := FirstBreak(c, rows, t + 1);
        assert BrokenAt(c, rows, k, v);
      }
    }
  }

  /** What a signature must be: a 64-byte text in base64 that verifies over the row, under the one scheme. */
  ghost predicate WellSigned(c: Crypto, r: Receipt, key: Key) {
    && r.signingScheme == "ed25519"
    && c.decode(r.signature).Some?
    && |c.decode(r.signature).value| == 64
    && c.verify(SigningPayload(r), c.decode(r.signature).value, key)
  }

  /** The check passes exactly for those, and otherwise names the first thing that is wrong. */
  lemma SignatureCheckExactly(c: Crypto, r: Receipt, key: Key)
    ensures var s := VerifyReceiptSignature(c, r, key);
      && (s.verified <==> WellSigned(c, r, key))
      && s.reason == if r.signingScheme != "ed25519" then "unsupported signing scheme: " + r.signingScheme
                     else if c.decode(r.signature).None? then "signature is not valid base64"
                     else if |c.decode(r.signature).value| != 64 then "signature is not 64 bytes"
                     else if !c.verify(SigningPayload(r), c.decode(r.signature).value, key)
                     then "signature verification failed" else "verified"
  {
    hide SigningPayload;
  }

  /** Row t is the first with the id, and every row up to it follows its predecessor, hashes and is well signed. */
  ghost predicate Proven(c: Crypto, key: Key, rows: seq<Receipt>, id: string, t: nat) {
    && t < |rows| && rows[t].id == id && (forall i :: 0 <= i < t ==> rows[i].id != id)
    && (forall i :: 0 <= i <= t ==> WellSigned(c, rows[i], key))
    && (forall i :: 0 <= i <= t ==> rows[i].thisHash == c.digest(HashPayload(rows[i])))
    && (forall i :: 0 < i <= t ==> rows[i].prevHash == Some(rows[i - 1].thisHash))
    && rows[0].prevHash == None
  }

  /** A receipt is reported verified if and only if it is proven. */
  lemma VerifiedExactlyWhenProven(c: Crypto, key: Key, rows: seq<Receipt>, id: string, v: Verdict)
    requires Judges(RowChecks(c, key), rows, id, v)
    ensures v.Verdict? && v.verified <==> exists t: nat :: Proven(c, key, rows, id, t)
  {
    hide WellSigned, VerifyReceiptSignature, SoundTo, SignedTo, Judges;
    var checks := RowChecks(c, key);
    VerifiedExactlyWhenAccepted(checks, rows, id, v);
    forall t: nat
      ensures Proven(c, key, rows, id, t)
         <==> Target(rows, id, t) && SoundTo(checks, rows, t + 1) && SignedTo(checks, rows, t + 1)
    {
      ProvenExactly(c, key, rows, id, t);
    }
  }

  lemma ProvenExactly(c: Crypto, key: Key, rows: seq<Receipt>, id: string, t: nat)
    ensures Proven(c, key, rows, id, t)
       <==> Target(rows, id, t) && SoundTo(RowChecks(c, key), rows, t + 1) && SignedTo(RowChecks(c, key), rows, t + 1)
  {
    hide WellSigned, VerifyReceiptSignature, HashPayload;
    var checks := RowChecks(c, key);
    if t < |rows| {
      forall i | 0 <= i <= t ensures Signed(checks, rows[i]) <==> WellSigned(c, rows[i], key) {
        SignatureCheckExactly(c, rows[i], key);
      }
      forall i | 0 <= i <= t
        ensures Linked(rows, i) && checks.hashed(rows[i])
           <==> rows[i].prevHash == (if i == 0 then None else Some(rows[i - 1].thisHash))
                && rows[i].thisHash == c.digest(HashPayload(rows[i]))
      {
      }
      if Target(rows, id, t) && SoundTo(checks, rows, t + 1) && SignedTo(checks, rows, t + 1) {
        forall i | 0 <= i <= t ensures Linked(rows, i) && checks.hashed(rows[i]) && Signed(checks, rows[i]) {
        }
      }
    }
  }

  /** Nothing verifies under the key but what was signed with it, and one signature is for one payload. */
  ghost predicate Unforgeable(c: Crypto) {
    && (forall p: Payload, s: Bytes :: c.verify(p, s, c.publicKey) ==> s == c.sign(p))
    && (forall p: Payload, q: Payload :: c.sign(p) == c.sign(q) ==> p == q)
  }

  /** A row that was altered after signing keeps its whole ledger from there on from being reported verified. */
  lemma TamperedNeverVerifies(c: Crypto, rows: seq<Receipt>, i: nat, original: Receipt, id: string, t: nat, v: Verdict)
    requires Unforgeable(c)
    requires i <= t < |rows| && Target(rows, id, t)
    requires c.decode(original.signature) == Some(c.sign(SigningPayload(original)))
    requires rows[i].signature == original.signature && rows[i] != original.(thisHash := rows[i].thisHash)
    requires Judges(RowChecks(c, c.publicKey), rows, id, v)
    ensures !(v.Verdict? && v.verified)
  {
    hide Judges, SigningPayload, HashPayload;
    VerifiedExactlyWhenProven(c, c.publicKey, rows, id, v);
    if SigningPayload(rows[i]) == SigningPayload(original) {
      SigningPayloadPins(rows[i], original);
    }
    assert !WellSigned(c, rows[i], c.publicKey);
    forall s: nat ensures !Proven(c, c.publicKey, rows, id, s) {
      assert s < t ==> rows[s].id != id;
    }
  }

  /** The promises leave one verdict only. */
  lemma VerdictUnique(c: Checks, rows: seq<Receipt>, id: string, v: Verdict, w: Verdict)
    requires Judges(c, rows, id, v) && Judges(c, rows, id, w)
    ensures v == w
  {
    if Unnamed(rows, id, |rows|) && SoundTo(c, rows, |rows|) {
    } else if Unnamed(rows, id, |rows|) {
      var k := FirstBreak(c, rows, |rows|);
      SameBreakVerdict(c, rows, k, v, w);
    } else {
      var t := FirstNamed(rows, id, |rows|);
      if SoundTo(c, rows, t + 1) {
        assert FoundAt(c, rows, t, v) && FoundAt(c, rows, t, w);
        SameReason(c, rows, t + 1, v.signatureReason, w.signatureReason);
      } else {
        var k := FirstBreak(c, rows, t + 1);
        SameBreakVerdict(c, rows, k, v, w);
      }
    }
  }

  lemma SameReason(c: Checks, rows: seq<Receipt>, n: nat, r: string, q: string)
    requires n <= |rows| && SignatureReason(c, rows, n, r) && SignatureReason(c, rows, n, q)
    ensures r == q
  {
  }

  lemma SameBreakVerdict(c: Checks, rows: seq<Receipt>, k: nat, v: Verdict, w: Verdict)
    requires Break(c, rows, k) && BrokenAt(c, rows, k, v) && BrokenAt(c, rows, k, w)
    ensures v == w
  {
    SameReason(c, rows, if Linked(rows, k) then k + 1 else k, v.signatureReason, w.signatureReason);
  }

  // ---------------------------------------------------------------------------
  // Rows added after a listing do not change its verdicts
  // ---------------------------------------------------------------------------

  lemma SoundPrefix(c: Checks, rows: seq<Receipt>, more: seq<Receipt>, n: nat)
    requires n <= |rows|
    ensures SoundTo(c, rows + more, n) <==> SoundTo(c, rows, n)
    ensures forall i :: 0 <= i < |rows| ==> (Linked(rows + more, i) <==> Linked(rows, i))
  {
    var all := rows + more;
    forall i | 0 <= i < |rows| ensures Linked(all, i) <==> Linked(rows, i) {
      assert all[i] == rows[i];
    }
    if SoundTo(c, rows, n) {
      forall i | 0 <= i < n ensures Linked(all, i) && c.hashed(all[i]) { assert Linked(rows, i); }
    }
    if SoundTo(c, all, n) {
      forall i | 0 <= i < n ensures Linked(rows, i) && c.hashed(rows[i]) { assert Linked(all, i) && c.hashed(all[i]); }
    }
  }

  lemma SignedPrefix(c: Checks, rows: seq<Receipt>, more: seq<Receipt>, n: nat, reason: string)
    requires n <= |rows|
    ensures SignedTo(c, rows + more, n) <==> SignedTo(c, rows, n)
    ensures SignatureReason(c, rows + more, n, reason) <==> SignatureReason(c, rows, n, reason)
  {
    var all := rows + more;
    assert forall i :: 0 <= i < n ==> all[i] == rows[i];
    if SignedTo(c, all, n) {
      forall i | 0 <= i < n ensures Signed(c, rows[i]) { assert Signed(c, all[i]); }
    }
  }

  /** A verdict on a row, or on a break before it, stands however the listing grows at its end. */
  lemma VerdictStands(c: Checks, rows: seq<Receipt>, more: seq<Receipt>, id: string, v: Verdict)
    requires Judges(c, rows, id, v) && v.Verdict?
    ensures Judges(c, rows + more, id, v)
  {
    var all := rows + more;
    var stop: nat;
    if Unnamed(rows, id, |rows|) {
      stop := FirstBreak(c, rows, |rows|);
      BreakStands(c, rows, more, id, stop, v);
    } else {
      stop := FirstNamed(rows, id, |rows|);
      if SoundTo(c, rows, stop + 1) {
        SoundPrefix(c, rows, more, stop + 1);
        SignedPrefix(c, rows, more, stop + 1, v.signatureReason);
        assert FoundAt(c, rows, stop, v);
        StopAtTarget(c, all, id, stop, v);
      } else {
        var k := FirstBreak(c, rows, stop + 1);
        BreakStands(c, rows, more, id, k, v);
      }
    }
  }

  lemma BreakStands(c: Checks, rows: seq<Receipt>, more: seq<Receipt>, id: string, k: nat, v: Verdict)
    requires Break(c, rows, k) && Unnamed(rows, id, k) && Judges(c, rows, id, v)
    ensures Judges(c, rows + more, id, v)
  {
    SoundPrefix(c, rows, more, k);
    SignedPrefix(c, rows, more, k, v.signatureReason);
    SignedPrefix(c, rows, more, k + 1, v.signatureReason);
    assert BrokenAt(c, rows, k, v);
    assert BrokenAt(c, rows + more, k, v);
    StopAtBreak(c, rows + more, id, k, v);
  }

  // ---------------------------------------------------------------------------
  // One head hash pins the whole history
  // ---------------------------------------------------------------------------

  /** Rows that pass the hash check and carry one hash are one row. */
  ghost predicate HashPins(c: Checks) {
    forall r: Receipt, q: Receipt :: c.hashed(r) && c.hashed(q) && r.thisHash == q.thisHash ==> r == q
  }

  lemma CollisionFreeHashPins(c: Crypto, key: Key)
    requires CollisionFree(c)
    ensures HashPins(RowChecks(c, key))
  {
    var checks := RowChecks(c, key);
    forall r: Receipt, q: Receipt | checks.hashed(r) && checks.hashed(q) && r.thisHash == q.thisHash
      ensures r == q
    {
      assert c.digest(HashPayload(r)) == c.digest(HashPayload(q));
      HashPayloadPins(r, q);
    }
  }

  lemma SameHashSameRow(c: Checks, rows: seq<Receipt>, others: seq<Receipt>, n: nat, m: nat)
    requires HashPins(c)
    requires n < |rows| && m < |others|
    requires SoundTo(c, rows, n + 1) && SoundTo(c, others, m + 1)
    requires rows[n].thisHash == others[m].thisHash
    ensures rows[n] == others[m]
    ensures n == 0 <==> m == 0
    ensures n > 0 ==> m > 0 && rows[n - 1].thisHash == others[m - 1].thisHash
  {
    assert Linked(rows, n) && Linked(others, m);
    assert c.hashed(rows[n]) && c.hashed(others[m]);
  }

  lemma {:induction false} SameHashSamePrefix(c: Checks, rows: seq<Receipt>, others: seq<Receipt>, n: nat, m: nat)
    requires HashPins(c)
    requires n < |rows| && m < |others|
    requires SoundTo(c, rows, n + 1) && SoundTo(c, others, m + 1)
    requires rows[n].thisHash == others[m].thisHash
    ensures n == m
    ensures forall i :: 0 <= i <= n ==> rows[i] == others[i]
  {
    SameHashSameRow(c, rows, others, n, m);
    if n == 0 {
    } else {
      SameHashSamePrefix(c, rows, others, n - 1, m - 1);
    }
  }

  /** Two stored ledgers that both verify up to rows with one hash hold the same history up to there. */
  lemma HeadHashPinsHistory(c: Crypto, key: Key, table: seq<Receipt>, other: seq<Receipt>, id: string, otherId: string,
                            v: Verdict, w: Verdict, t: nat, s: nat)
    requires CollisionFree(c)
    requires Judges(RowChecks(c, key), Ordered(table), id, v) && v.Verdict? && v.verified
    requires Judges(RowChecks(c, key), Ordered(other), otherId, w) && w.Verdict? && w.verified
    requires Target(Ordered(table), id, t) && Target(Ordered(other), otherId, s)
    requires Ordered(table)[t].thisHash == Ordered(other)[s].thisHash
    ensures t == s && id == otherId && Ordered(table)[..t + 1] == Ordered(other)[..s + 1]
  {
    CollisionFreeHashPins(c, key);
    AcceptedHistoriesAgree(RowChecks(c, key), Ordered(table), Ordered(other), id, otherId, v, w, t, s);
  }

  lemma AcceptedHistoriesAgree(c: Checks, rows: seq<Receipt>, others: seq<Receipt>, id: string, otherId: string,
                               v: Verdict, w: Verdict, t: nat, s: nat)
    requires HashPins(c)
    requires Judges(c, rows, id, v) && v.Verdict? && v.verified
    requires Judges(c, others, otherId, w) && w.Verdict? && w.verified
    requires Target(rows, id, t) && Target(others, otherId, s)
    requires rows[t].thisHash == others[s].thisHash
    ensures t == s && id == otherId && rows[..t + 1] == others[..s + 1]
  {
    VerifiedExactlyWhenAccepted(c, rows, id, v);
    VerifiedExactlyWhenAccepted(c, others, otherId, w);
    SameHashSamePrefix(c, rows, others, t, s);
  }
}

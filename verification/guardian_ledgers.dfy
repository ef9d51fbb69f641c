/** The durable authorization locks of the Guardians. */
module GuardianLedgers {
  import opened Outcomes
  import opened Hashing
  import opened Manifests
  import Authorizations

  type Locks = map<string, string>

  /** `acquire`: one transaction on the lock table. */
  function AcquireStep(c: Crypto, locks: Locks, decisionId: string, hash: string): (Result<bool>, Locks)
  {
    if !c.isDigest(decisionId) || !c.isDigest(hash) then (Failure(NonCanonical), locks)
    else if decisionId in locks then
      (if locks[decisionId] != hash then Failure(DecryptionReplay) else Success(false), locks)
    else (Success(true), locks[decisionId := hash])
  }

  class GuardianAuthorizationLedger {
    const c: Crypto
    var locks: Locks

    constructor (c: Crypto)
      ensures this.c == c && locks == map[]
    {
      this.c, locks := c, map[];
    }

    method Acquire(decisionId: string, hash: string) returns (r: Result<bool>)
      modifies this`locks
      ensures (r, locks) == AcquireStep(c, old(locks), decisionId, hash)
      ensures r.Success? ==> decisionId in locks && locks[decisionId] == hash
      ensures r == Success(true) <==> locks != old(locks)
    {
      if !c.isDigest(decisionId) || !c.isDigest(hash) {
        return Failure(NonCanonical);
      }
      if decisionId in locks {
        if locks[decisionId] != hash {
          return Failure(DecryptionReplay);
        }
        return Success(false);
      }
      locks := locks[decisionId := hash];
      return Success(true);
    }
  }

  // -------------------------------------------------------------- whole runs

  /** One call on the ledger of one Guardian. */
  datatype Call = Call(guardian: string, decisionId: string, hash: string)

  /** The locks of every Guardian after a run; Guardians that were never called have none. */
  function Run(c: Crypto, calls: seq<Call>, guardian: string): Locks
  {
    if calls == [] then map[]
    else
      var locks := Run(c, calls[..|calls| - 1], guardian);
      var call := calls[|calls| - 1];
      if call.guardian == guardian then AcquireStep(c, locks, call.decisionId, call.hash).1 else locks
  }

  /** What the call at a position of a run returned or raised. */
  function Answer(c: Crypto, calls: seq<Call>, i: nat): Result<bool>
    requires i < |calls|
  {
    AcquireStep(c, Run(c, calls[..i], calls[i].guardian), calls[i].decisionId, calls[i].hash).0
  }

  lemma {:induction false} LocksStay(c: Crypto, calls: seq<Call>, n: nat, guardian: string, decisionId: string)
    requires n <= |calls| && decisionId in Run(c, calls[..n], guardian)
    ensures decisionId in Run(c, calls, guardian)
    ensures Run(c, calls, guardian)[decisionId] == Run(c, calls[..n], guardian)[decisionId]
    decreases |calls|
  {
    if n == |calls| {
      assert calls[..n] == calls;
    } else {
      var front := calls[..|calls| - 1];
      assert front[..n] == calls[..n];
      LocksStay(c, front, n, guardian, decisionId);
    }
  }

  /** A call that does not raise leaves its hash locked for the rest of the run. */
  lemma GrantedIsLocked(c: Crypto, calls: seq<Call>, i: nat)
    requires i < |calls| && Answer(c, calls, i).Success?
    ensures calls[i].decisionId in Run(c, calls, calls[i].guardian)
    ensures Run(c, calls, calls[i].guardian)[calls[i].decisionId] == calls[i].hash
  {
    assert calls[..i + 1][..i] == calls[..i];
    LocksStay(c, calls, i + 1, calls[i].guardian, calls[i].decisionId);
  }

  /** One ledger grants one authorization a decision, and says True for it at one call only. */
  lemma OneGrantPerDecision(c: Crypto, calls: seq<Call>, i: nat, j: nat)
    requires i < j < |calls|
    requires calls[i].guardian == calls[j].guardian && calls[i].decisionId == calls[j].decisionId
    requires Answer(c, calls, i).Success?
    ensures Answer(c, calls, j) ==
            if calls[j].hash == calls[i].hash then Success(false)
            else if c.isDigest(calls[j].hash) then Failure(DecryptionReplay) else Failure(NonCanonical)
  {
    assert calls[..j][..i] == calls[..i] && calls[..j][i] == calls[i];
    GrantedIsLocked(c, calls[..j], i);
  }

  /** The first call for a decision that does not raise is the one that answers True. */
  lemma FirstGrantIsTrue(c: Crypto, calls: seq<Call>, i: nat)
    requires i < |calls| && Answer(c, calls, i).Success?
    requires forall j | 0 <= j < i && calls[j].guardian == calls[i].guardian && calls[j].decisionId == calls[i].decisionId ::
               Answer(c, calls, j).Failure?
    ensures Answer(c, calls, i) == Success(true)
  {
    if calls[i].decisionId in Run(c, calls[..i], calls[i].guardian) {
      var j := LockWasGranted(c, calls, i, calls[i].guardian, calls[i].decisionId);
    }
  }

  lemma {:induction false} LockWasGranted(c: Crypto, calls: seq<Call>, n: nat, guardian: string, decisionId: string) returns (j: nat)
    requires n <= |calls| && decisionId in Run(c, calls[..n], guardian)
    ensures j < n && calls[j].guardian == guardian && calls[j].decisionId == decisionId && Answer(c, calls, j).Success?
  {
    assert calls[..n][..n - 1] == calls[..n - 1];
    if decisionId in Run(c, calls[..n - 1], guardian) {
      j := LockWasGranted(c, calls, n - 1, guardian, decisionId);
    } else {
      j := n - 1;
    }
  }

  /** The Guardian has, at some call of the run, been granted the authorization. */
  ghost predicate Granted(c: Crypto, calls: seq<Call>, guardian: string, decisionId: string, hash: string)
  {
    exists i :: 0 <= i < |calls| && calls[i] == Call(guardian, decisionId, hash) && Answer(c, calls, i).Success?
  }

  lemma Overlap(a: set<string>, b: set<string>, all: set<string>)
    requires a <= all && b <= all && |a| + |b| > |all|
    ensures exists g :: g in a && g in b
  {
    if forall g | g in a :: g !in b {
      assert a !! b;
      Inside(a + b, all);
    }
  }

  lemma {:induction false} Inside(a: set<string>, b: set<string>)
    requires a <= b
    ensures |a| <= |b|
  {
    assert b == a + (b - a);
  }

  /** Two authorizations of one decision are never both granted by a threshold of the Guardians. */
  lemma OneAuthorizationPerDecision(c: Crypto, calls: seq<Call>, guardians: set<string>, decisionId: string,
                                    hash: string, granting: set<string>, hash': string, granting': set<string>)
    requires |guardians| == GUARDIAN_COUNT
    requires granting <= guardians && |granting| >= GUARDIAN_THRESHOLD
    requires granting' <= guardians && |granting'| >= GUARDIAN_THRESHOLD
    requires forall g | g in granting :: Granted(c, calls, g, decisionId, hash)
    requires forall g | g in granting' :: Granted(c, calls, g, decisionId, hash')
    ensures hash == hash'
  {
    Overlap(granting, granting', guardians);
    var g :| g in granting && g in granting';
    assert Granted(c, calls, g, decisionId, hash) && Granted(c, calls, g, decisionId, hash');
    var i: nat :| i < |calls| && calls[i] == Call(g, decisionId, hash) && Answer(c, calls, i).Success?;
    var j: nat :| j < |calls| && calls[j] == Call(g, decisionId, hash') && Answer(c, calls, j).Success?;
    GrantedIsLocked(c, calls, i);
    GrantedIsLocked(c, calls, j);
  }

  /** A Guardian accepted the authorization, in whatever frame it holds, and was granted its lock. */
  ghost predicate Authorized(c: Crypto, calls: seq<Call>, guardian: string, a: Authorizations.Authorization)
  {
    && Granted(c, calls, guardian, a.body.decisionId, a.authorizationHash)
    && exists f :: Authorizations.Verify(c, a, f) == Success(a.authorizationHash)
  }

  /** So a threshold of Guardians never decrypts under two authorizations of one decision that differ in
      anything: in the board root, the options, their aggregates or the counts. */
  lemma OneAuthorizationInFull(c: Crypto, calls: seq<Call>, guardians: set<string>,
                               a: Authorizations.Authorization, granting: set<string>,
                               a': Authorizations.Authorization, granting': set<string>)
    requires Ideal(c) && |guardians| == GUARDIAN_COUNT && a.body.decisionId == a'.body.decisionId
    requires granting <= guardians && |granting| >= GUARDIAN_THRESHOLD
    requires granting' <= guardians && |granting'| >= GUARDIAN_THRESHOLD
    requires forall g | g in granting :: Authorized(c, calls, g, a)
    requires forall g | g in granting' :: Authorized(c, calls, g, a')
    ensures a == a'
  {
    OneAuthorizationPerDecision(c, calls, guardians, a.body.decisionId, a.authorizationHash, granting,
                                a'.authorizationHash, granting');
    Overlap(granting, granting', guardians);
    var g :| g in granting && g in granting';
    assert Authorized(c, calls, g, a) && Authorized(c, calls, g, a');
    var f :| Authorizations.Verify(c, a, f) == Success(a.authorizationHash);
    var f' :| Authorizations.Verify(c, a', f') == Success(a'.authorizationHash);
    Authorizations.SameHashSameAuthorization(c, a, f, a', f');
  }
}

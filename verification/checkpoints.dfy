/** Checkpoint bodies and the quorum checkpoints that seal the board. */
module Checkpoints {
  import opened Outcomes
  import opened CanonicalJson
  import opened JsonObjects
  import opened Hashing
  import opened Manifests
  import opened Statements
  import opened Quorums

  const CUTOFF_TAG := "vsdp/cutoff-statement/v1"
  const CUTOFF_KEYS := ["decision_id", "epoch", "schema", "vote_closes_at"]

  lemma CutoffKeysAreGood()
    ensures GoodKeys(CUTOFF_KEYS)
  {
  }

  lemma CutoffSchemaIsText()
    ensures ValidString("vsdp-cutoff-statement/1")
  {
  }

  function CutoffJson(m: Manifest): Json
  {
    CutoffKeysAreGood();
    Dict(CUTOFF_KEYS, [Str(m.decisionId), Str(m.epoch), Str("vsdp-cutoff-statement/1"), Str(m.closesText)])
  }

  lemma CutoffJsonIsValid(c: Crypto, m: Manifest)
    requires Sound(c, m)
    ensures Valid(CutoffJson(m))
  {
    CutoffKeysAreGood();
    CutoffSchemaIsText();
    DigestIsText(c, m.decisionId);
    DictIsValid(CUTOFF_KEYS, [Str(m.decisionId), Str(m.epoch), Str("vsdp-cutoff-statement/1"), Str(m.closesText)]);
  }

  /** `expected_cutoff_statement_hash`. */
  function CutoffHash(c: Crypto, m: Manifest): string
    requires Sound(c, m)
  {
    CutoffJsonIsValid(c, m);
    DomainHash(c, CUTOFF_TAG, CutoffJson(m))
  }

  /** `_validate_checkpoint_body`: the error it raises, if any. */
  function BodyError(c: Crypto, m: Manifest, b: CheckpointBody): Option<Error>
    requires Sound(c, m)
  {
    if b.schema != CHECKPOINT_SCHEMA || b.profileId != PROFILE_ID then Some(ContextMismatch)
    else if !c.isDigest(b.acceptedBallotRoot) || !c.isDigest(b.challengeAuditRoot)
         || !c.isDigest(b.cutoffStatementHash) || !c.isDigest(b.decisionId) || !c.isDigest(b.disputeRoot)
         || !c.isDigest(b.previousCheckpointHash) || !c.isDigest(b.recordSetRoot) then Some(NonCanonical)
    else if b.height != 1 || b.recordCount < 0 then Some(NonCanonical)
    else if b.decisionId != m.decisionId || b.epoch != m.epoch then Some(ContextMismatch)
    else if b.previousCheckpointHash != m.genesis then Some(ContextMismatch)
    else if b.cutoffStatementHash != CutoffHash(c, m) then Some(ContextMismatch)
    else None
  }

  /** The body of the one checkpoint of this decision: its roots are digests, its count is not negative. */
  ghost predicate BodyFits(c: Crypto, m: Manifest, b: CheckpointBody)
    requires Sound(c, m)
  {
    && b.schema == CHECKPOINT_SCHEMA && b.profileId == PROFILE_ID
    && WellFormedBody(c, b)
    && b.decisionId == m.decisionId && b.epoch == m.epoch
    && b.previousCheckpointHash == m.genesis && b.cutoffStatementHash == CutoffHash(c, m)
  }

  ghost predicate WellFormedBody(c: Crypto, b: CheckpointBody)
  {
    && c.isDigest(b.acceptedBallotRoot) && c.isDigest(b.recordSetRoot)
    && c.isDigest(b.challengeAuditRoot) && c.isDigest(b.disputeRoot)
    && c.isDigest(b.cutoffStatementHash) && c.isDigest(b.decisionId) && c.isDigest(b.previousCheckpointHash)
    && b.height == 1 && b.recordCount >= 0
  }

  /** Fitting bodies pass; otherwise the first of schema, form and context that is wrong decides. */
  lemma BodyErrorMeaning(c: Crypto, m: Manifest, b: CheckpointBody)
    requires Sound(c, m)
    ensures BodyError(c, m, b) == None <==> BodyFits(c, m, b)
    ensures b.schema != CHECKPOINT_SCHEMA || b.profileId != PROFILE_ID ==> BodyError(c, m, b) == Some(ContextMismatch)
    ensures b.schema == CHECKPOINT_SCHEMA && b.profileId == PROFILE_ID && !WellFormedBody(c, b) ==>
              BodyError(c, m, b) == Some(NonCanonical)
    ensures WellFormedBody(c, b) && !BodyFits(c, m, b) ==> BodyError(c, m, b) == Some(ContextMismatch)
  {
  }

  /** The cutoff hash is of this decision, epoch and closing time, and of no others. */
  lemma CutoffHashBinds(c: Crypto, m: Manifest, m': Manifest)
    requires Sound(c, m) && Sound(c, m') && CutoffHash(c, m) == CutoffHash(c, m')
    ensures m.decisionId == m'.decisionId && m.epoch == m'.epoch && m.closesText == m'.closesText
  {
    CutoffKeysAreGood();
    CutoffJsonIsValid(c, m);
    CutoffJsonIsValid(c, m');
    DomainHashIsInjective(c, CUTOFF_TAG, CutoffJson(m), CUTOFF_TAG, CutoffJson(m'));
    var v := [Str(m.decisionId), Str(m.epoch), Str("vsdp-cutoff-statement/1"), Str(m.closesText)];
    var w := [Str(m'.decisionId), Str(m'.epoch), Str("vsdp-cutoff-statement/1"), Str(m'.closesText)];
    DictIsInjective(CUTOFF_KEYS, v, w);
    assert v[0] == w[0] && v[1] == w[1] && v[3] == w[3];
  }

  lemma CheckpointLiteralsAreText()
    ensures ValidString(CHECKPOINT_SCHEMA) && ValidString(PROFILE_ID)
  {
  }

  /** A checked body has a canonical text unless its count is outside the safe integers. */
  lemma CheckedBodyIsText(c: Crypto, m: Manifest, b: CheckpointBody)
    requires Sound(c, m) && BodyError(c, m, b) == None
    ensures ValidBody(b) <==> b.recordCount <= MAX_SAFE_INTEGER
  {
    CheckpointLiteralsAreText();
    DigestIsText(c, b.acceptedBallotRoot);
    DigestIsText(c, b.challengeAuditRoot);
    DigestIsText(c, b.cutoffStatementHash);
    DigestIsText(c, b.decisionId);
    DigestIsText(c, b.disputeRoot);
    DigestIsText(c, b.previousCheckpointHash);
    DigestIsText(c, b.recordSetRoot);
  }

  /** A signature entry of a checkpoint also repeats the hash it signs. */
  datatype CheckpointEntry = CheckpointEntry(checkpointHash: string, entry: SigEntry)

  datatype QuorumCheckpoint = QuorumCheckpoint(
    checkpoint: CheckpointBody,
    checkpointHash: string,
    schema: string,
    signatures: seq<CheckpointEntry>)

  function EntryVote(expected: string, e: CheckpointEntry): Vote
  {
    Vote(if e.checkpointHash != expected then Some(ContextMismatch) else None, e.entry)
  }

  function EntryVotes(expected: string, entries: seq<CheckpointEntry>): (votes: seq<Vote>)
    ensures |votes| == |entries|
  {
    seq(|entries|, i requires 0 <= i < |entries| => EntryVote(expected, entries[i]))
  }

  /** `verify_quorum_checkpoint`. */
  function CheckpointVerdict(c: Crypto, m: Manifest, q: QuorumCheckpoint): Result<string>
    requires Sound(c, m)
  {
    if q.schema != QUORUM_CHECKPOINT_SCHEMA then Failure(NonCanonical)
    else
      match BodyError(c, m, q.checkpoint)
      case Some(e) => Failure(e)
      case None =>
        if !ValidBody(q.checkpoint) then Failure(NonCanonical)
        else
          var expected := CheckpointHash(c, q.checkpoint);
          if !c.isDigest(q.checkpointHash) then Failure(NonCanonical)
          else if q.checkpointHash != expected then Failure(ContextMismatch)
          else
            match VotesError(c, m, expected, EntryVotes(expected, q.signatures))
            case Some(e) => Failure(e)
            case None => Success(expected)
  }

  method VerifyQuorumCheckpoint(c: Crypto, m: Manifest, q: QuorumCheckpoint, quorum: int := WITNESS_QUORUM)
    returns (v: Result<string>)
    requires Sound(c, m)
    ensures v == if quorum != WITNESS_QUORUM then Failure(NonCanonical) else CheckpointVerdict(c, m, q)
  {
    if quorum != WITNESS_QUORUM || q.schema != QUORUM_CHECKPOINT_SCHEMA {
      return Failure(NonCanonical);
    }
    var problem := BodyError(c, m, q.checkpoint);
    if problem.Some? {
      return Failure(problem.value);
    }
    if !ValidBody(q.checkpoint) {
      return Failure(NonCanonical);
    }
    var expected := CheckpointHash(c, q.checkpoint);
    if !c.isDigest(q.checkpointHash) {
      return Failure(NonCanonical);
    }
    if q.checkpointHash != expected {
      return Failure(ContextMismatch);
    }
    problem := VerifyVotes(c, m, expected, EntryVotes(expected, q.signatures));
    if problem.Some? {
      return Failure(problem.value);
    }
    return Success(expected);
  }

  function CoreEntries(entries: seq<CheckpointEntry>): (cores: seq<SigEntry>)
    ensures |cores| == |entries|
  {
    seq(|entries|, i requires 0 <= i < |entries| => entries[i].entry)
  }

  /** A body of this board, hashed correctly, with a quorum of Witnesses signing that hash. */
  ghost predicate GoodCheckpoint(c: Crypto, m: Manifest, q: QuorumCheckpoint)
    requires Sound(c, m)
  {
    && q.schema == QUORUM_CHECKPOINT_SCHEMA
    && BodyFits(c, m, q.checkpoint)
    && ValidBody(q.checkpoint)
    && q.checkpointHash == CheckpointHash(c, q.checkpoint)
    && (forall i | 0 <= i < |q.signatures| :: q.signatures[i].checkpointHash == q.checkpointHash)
    && IsQuorum(c, m, q.checkpointHash, CoreEntries(q.signatures))
  }

  lemma EntryVotesMeaning(c: Crypto, m: Manifest, expected: string, q: QuorumCheckpoint)
    requires Sound(c, m)
    ensures VotesError(c, m, expected, EntryVotes(expected, q.signatures)) == None <==>
            && (forall i | 0 <= i < |q.signatures| :: q.signatures[i].checkpointHash == expected)
            && IsQuorum(c, m, expected, CoreEntries(q.signatures))
  {
    var votes := EntryVotes(expected, q.signatures);
    VotesErrorMeaning(c, m, expected, votes);
    assert EntriesOf(votes) == CoreEntries(q.signatures);
    assert forall i | 0 <= i < |votes| :: votes[i].refusal == None <==> q.signatures[i].checkpointHash == expected;
  }

  lemma CheckpointVerdictMeaning(c: Crypto, m: Manifest, q: QuorumCheckpoint)
    requires Sound(c, m)
    ensures CheckpointVerdict(c, m, q).Success? <==> GoodCheckpoint(c, m, q)
    ensures GoodCheckpoint(c, m, q) ==> CheckpointVerdict(c, m, q) == Success(q.checkpointHash)
  {
    BodyErrorMeaning(c, m, q.checkpoint);
    if ValidBody(q.checkpoint) {
      var expected := CheckpointHash(c, q.checkpoint);
      CheckpointJsonIsValid(q.checkpoint);
      DomainHashIsDigest(c, CHECKPOINT_TAG, CheckpointJson(q.checkpoint));
      EntryVotesMeaning(c, m, expected, q);
    }
  }

  // ---------------------------------------------------------------- combining

  datatype SignedCheckpoint = SignedCheckpoint(checkpoint: CheckpointBody, schema: string, signature: CheckpointEntry)

  function SignedVote(body: CheckpointBody, expected: string, item: SignedCheckpoint): Vote
  {
    if item.schema != CHECKPOINT_SIGNATURE_SCHEMA || item.checkpoint != body
    then Vote(Some(BoardFork), item.signature.entry)
    else EntryVote(expected, item.signature)
  }

  function SignedVotes(body: CheckpointBody, expected: string, items: seq<SignedCheckpoint>): (votes: seq<Vote>)
    ensures |votes| == |items|
  {
    seq(|items|, i requires 0 <= i < |items| => SignedVote(body, expected, items[i]))
  }

  function WithHash(hash: string, entries: seq<SigEntry>): (signatures: seq<CheckpointEntry>)
    ensures |signatures| == |entries|
    ensures CoreEntries(signatures) == entries
  {
    seq(|entries|, i requires 0 <= i < |entries| => CheckpointEntry(hash, entries[i]))
  }

  /** `combine_checkpoints`. */
  function CombinedCheckpoint(c: Crypto, m: Manifest, items: seq<SignedCheckpoint>): Result<QuorumCheckpoint>
    requires Sound(c, m)
  {
    if items == [] then Failure(ReceiptQuorumMissing)
    else
      var body := items[0].checkpoint;
      match BodyError(c, m, body)
      case Some(e) => Failure(e)
      case None =>
        if !ValidBody(body) then
          // the hash is first taken for the first matching signature; a mismatch there is a fork
          if items[0].schema != CHECKPOINT_SIGNATURE_SCHEMA then Failure(BoardFork) else Failure(NonCanonical)
        else
          var expected := CheckpointHash(c, body);
          match Gather(c, m, expected, SignedVotes(body, expected, items))
          case Failure(e) => Failure(e)
          case Success(signatures) =>
            if |signatures| < WITNESS_QUORUM then Failure(ReceiptQuorumMissing)
            else Success(QuorumCheckpoint(body, expected, QUORUM_CHECKPOINT_SCHEMA,
                                          WithHash(expected, SortedEntries(signatures))))
  }

  /** The loop over the signed checkpoints: one signature for each Witness. */
  method GatherCheckpoints(c: Crypto, m: Manifest, body: CheckpointBody, expected: string, items: seq<SignedCheckpoint>)
    returns (r: Result<map<string, SigEntry>>)
    requires Sound(c, m)
    ensures r == Gather(c, m, expected, SignedVotes(body, expected, items))
  {
    ghost var votes := SignedVotes(body, expected, items);
    var signatures: map<string, SigEntry> := map[];
    for n := 0 to |items|
      invariant Gather(c, m, expected, votes[..n]) == Success(signatures)
    {
      var item := items[n];
      GatherStep(c, m, expected, votes, n, signatures);
      if item.schema != CHECKPOINT_SIGNATURE_SCHEMA || item.checkpoint != body {
        GatherStops(c, m, expected, votes, n + 1);
        return Failure(BoardFork);
      }
      if item.signature.checkpointHash != expected {
        GatherStops(c, m, expected, votes, n + 1);
        return Failure(ContextMismatch);
      }
      var problem := VerifyEntry(c, m, expected, item.signature.entry);
      if problem.Some? {
        GatherStops(c, m, expected, votes, n + 1);
        return Failure(problem.value);
      }
      var id := item.signature.entry.witnessId;
      if id in signatures && signatures[id] != item.signature.entry {
        GatherStops(c, m, expected, votes, n + 1);
        return Failure(BoardFork);
      }
      signatures := signatures[id := item.signature.entry];
    }
    assert votes[..|items|] == votes;
    return Success(signatures);
  }

  method CombineCheckpoints(c: Crypto, m: Manifest, items: seq<SignedCheckpoint>, quorum: int := WITNESS_QUORUM)
    returns (r: Result<QuorumCheckpoint>)
    requires Sound(c, m)
    ensures r == if quorum != WITNESS_QUORUM then Failure(NonCanonical) else CombinedCheckpoint(c, m, items)
  {
    if quorum != WITNESS_QUORUM {
      return Failure(NonCanonical);
    }
    if items == [] {
      return Failure(ReceiptQuorumMissing);
    }
    var body := items[0].checkpoint;
    var problem := BodyError(c, m, body);
    if problem.Some? {
      return Failure(problem.value);
    }
    if !ValidBody(body) {
      return if items[0].schema != CHECKPOINT_SIGNATURE_SCHEMA then Failure(BoardFork) else Failure(NonCanonical);
    }
    var expected := CheckpointHash(c, body);
    var gathered := GatherCheckpoints(c, m, body, expected, items);
    if gathered.Failure? {
      return Failure(gathered.error);
    }
    if |gathered.value| < WITNESS_QUORUM {
      return Failure(ReceiptQuorumMissing);
    }
    return Success(QuorumCheckpoint(body, expected, QUORUM_CHECKPOINT_SCHEMA,
                                    WithHash(expected, SortedEntries(gathered.value))));
  }

  /** Whatever combines is accepted, under the hash of the common body. */
  lemma CombinedCheckpointVerifies(c: Crypto, m: Manifest, items: seq<SignedCheckpoint>)
    requires Sound(c, m) && CombinedCheckpoint(c, m, items).Success?
    ensures var q := CombinedCheckpoint(c, m, items).value;
            GoodCheckpoint(c, m, q) && CheckpointVerdict(c, m, q) == Success(q.checkpointHash)
  {
    var body := items[0].checkpoint;
    var expected := CheckpointHash(c, body);
    GatheredIsQuorum(c, m, expected, SignedVotes(body, expected, items));
    CheckpointVerdictMeaning(c, m, CombinedCheckpoint(c, m, items).value);
  }

  /** The signed checkpoints are of the body of the quorum checkpoint, and their signatures are those in it. */
  ghost predicate MadeOf(q: QuorumCheckpoint, items: seq<SignedCheckpoint>)
  {
    && items != []
    && (forall i | 0 <= i < |items| ::
          && items[i].schema == CHECKPOINT_SIGNATURE_SCHEMA && items[i].checkpoint == q.checkpoint
          && items[i].signature.checkpointHash == q.checkpointHash)
    && (forall e :: e in CoreEntries(q.signatures) <==> Offered(items, e))
  }

  ghost predicate Offered(items: seq<SignedCheckpoint>, e: SigEntry)
  {
    exists i :: 0 <= i < |items| && items[i].signature.entry == e
  }

  lemma OfferedVotes(body: CheckpointBody, expected: string, items: seq<SignedCheckpoint>)
    ensures forall e :: e in EntriesOf(SignedVotes(body, expected, items)) <==> Offered(items, e)
    ensures (forall v | v in SignedVotes(body, expected, items) :: v.refusal == None) <==>
            forall i | 0 <= i < |items| ::
              && items[i].schema == CHECKPOINT_SIGNATURE_SCHEMA && items[i].checkpoint == body
              && items[i].signature.checkpointHash == expected
  {
    var votes := SignedVotes(body, expected, items);
    forall e ensures e in EntriesOf(votes) <==> Offered(items, e) {
      if Offered(items, e) {
        var i :| 0 <= i < |items| && items[i].signature.entry == e;
        assert EntriesOf(votes)[i] == e;
      }
    }
    forall i | 0 <= i < |items| ensures votes[i] in votes {
    }
    assert forall i | 0 <= i < |items| :: votes[i] == SignedVote(body, expected, items[i]);
  }

  /** Signed checkpoints combine to a quorum checkpoint exactly when it is good and made of just them. */
  lemma CombinedCheckpointMeaning(c: Crypto, m: Manifest, items: seq<SignedCheckpoint>, q: QuorumCheckpoint)
    requires Sound(c, m)
    ensures CombinedCheckpoint(c, m, items) == Success(q) <==> GoodCheckpoint(c, m, q) && MadeOf(q, items)
  {
    if CombinedCheckpoint(c, m, items) == Success(q) {
      CombinedCheckpointVerifies(c, m, items);
      CombinedIsMadeOf(c, m, items, q);
    }
    if GoodCheckpoint(c, m, q) && MadeOf(q, items) {
      MadeOfCombines(c, m, items, q);
    }
  }

  lemma CombinedIsMadeOf(c: Crypto, m: Manifest, items: seq<SignedCheckpoint>, q: QuorumCheckpoint)
    requires Sound(c, m) && CombinedCheckpoint(c, m, items) == Success(q)
    ensures MadeOf(q, items)
  {
    var votes := SignedVotes(q.checkpoint, q.checkpointHash, items);
    GatherMeaning(c, m, q.checkpointHash, votes);
    OfferedVotes(q.checkpoint, q.checkpointHash, items);
    KeptAreOffered(votes, Gather(c, m, q.checkpointHash, votes).value);
  }

  lemma MadeOfCombines(c: Crypto, m: Manifest, items: seq<SignedCheckpoint>, q: QuorumCheckpoint)
    requires Sound(c, m) && GoodCheckpoint(c, m, q) && MadeOf(q, items)
    ensures CombinedCheckpoint(c, m, items) == Success(q)
  {
    BodyErrorMeaning(c, m, q.checkpoint);
    OfferedVotes(q.checkpoint, q.checkpointHash, items);
    QuorumIsKept(c, m, q.checkpointHash, SignedVotes(q.checkpoint, q.checkpointHash, items), CoreEntries(q.signatures));
    HashedEntries(q);
  }

  lemma HashedEntries(q: QuorumCheckpoint)
    requires forall i | 0 <= i < |q.signatures| :: q.signatures[i].checkpointHash == q.checkpointHash
    ensures WithHash(q.checkpointHash, CoreEntries(q.signatures)) == q.signatures
  {
  }

  lemma SignedVotesFollowItems(body: CheckpointBody, expected: string, items: seq<SignedCheckpoint>, items': seq<SignedCheckpoint>)
    requires forall a | a in items :: a in items'
    ensures forall v | v in SignedVotes(body, expected, items) :: v in SignedVotes(body, expected, items')
  {
    forall v | v in SignedVotes(body, expected, items) ensures v in SignedVotes(body, expected, items') {
      var i :| 0 <= i < |items| && SignedVotes(body, expected, items)[i] == v;
      assert items[i] in items';
      var j :| 0 <= j < |items'| && items'[j] == items[i];
      assert SignedVotes(body, expected, items')[j] == v;
    }
  }

  /** The quorum checkpoint depends on the set of signed checkpoints only. */
  lemma CombinedCheckpointIgnoresOrder(c: Crypto, m: Manifest, items: seq<SignedCheckpoint>, items': seq<SignedCheckpoint>)
    requires Sound(c, m) && CombinedCheckpoint(c, m, items).Success?
    requires forall a :: a in items <==> a in items'
    ensures CombinedCheckpoint(c, m, items') == CombinedCheckpoint(c, m, items)
  {
    var body := items[0].checkpoint;
    var expected := CheckpointHash(c, body);
    var votes := SignedVotes(body, expected, items);
    GatherMeaning(c, m, expected, votes);
    assert items' != [] by {
      assert items[0] in items';
    }
    SignedVotesFollowItems(body, expected, items, items');
    SignedVotesFollowItems(body, expected, items', items);
    forall a | a in items ensures a.checkpoint == body {
      var i :| 0 <= i < |items| && items[i] == a;
      assert votes[i] in votes && GoodVote(c, m, expected, votes[i]);
    }
    assert items'[0] in items;
    GatherIgnoresOrder(c, m, expected, votes, SignedVotes(body, expected, items'));
  }
}

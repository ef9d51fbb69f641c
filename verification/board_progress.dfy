/** That the board gets somewhere: Witnesses that agree do produce what a verifier accepts. */
module BoardProgress {
  import opened Outcomes
  import opened Ordering
  import opened CanonicalJson
  import opened Hashing
  import opened Merkle
  import opened Manifests
  import opened Statements
  import opened Quorums
  import opened Receipts
  import opened Checkpoints
  import opened Ballots
  import opened WitnessTables
  import opened WitnessInvariant
  import opened BoardRuns

  /** The body a Witness signs is one that a verifier accepts. */
  lemma BodyOverIsChecked(b: Board, ids: set<string>)
    requires SoundBoard(b)
    ensures BodyError(b.c, b.m, BodyOver(b, ids)) == None
  {
    RootIsDigest(b.c, ids);
    RootIsDigest(b.c, {});
    CutoffJsonIsValid(b.c, b.m);
    DomainHashIsDigest(b.c, CUTOFF_TAG, CutoffJson(b.m));
  }

  predicate DifferentWitnesses(m: Manifest, keys: seq<string>)
  {
    && (forall i, j | 0 <= i < j < |keys| :: keys[i] != keys[j])
    && (forall k | k in keys :: k in m.witnesses && ValidString(k))
  }

  function SignedBy(b: Board, keys: seq<string>, body: CheckpointBody): (items: seq<SignedCheckpoint>)
    requires SoundBoard(b) && DifferentWitnesses(b.m, keys) && ValidBody(body)
    ensures |items| == |keys|
  {
    seq(|keys|, i requires 0 <= i < |keys| => SignBody(b, keys[i], body))
  }

  lemma SignedVoteIsGood(b: Board, keys: seq<string>, body: CheckpointBody, i: nat)
    requires SoundBoard(b) && DifferentWitnesses(b.m, keys) && ValidBody(body) && i < |keys|
    ensures var hash := CheckpointHash(b.c, body); var v := SignedVotes(body, hash, SignedBy(b, keys, body))[i];
            GoodVote(b.c, b.m, hash, v) && v.entry.publicKey == keys[i]
  {
    assert SignatureVerifies(b.c, keys[i], CheckpointHash(b.c, body));
  }

  /** Signatures of one body by different Witnesses are gathered completely. */
  lemma SignedVotesGather(b: Board, keys: seq<string>, body: CheckpointBody)
    requires SoundBoard(b) && DifferentWitnesses(b.m, keys) && ValidBody(body)
    ensures var hash := CheckpointHash(b.c, body); var votes := SignedVotes(body, hash, SignedBy(b, keys, body));
            && Gather(b.c, b.m, hash, votes).Success?
            && Collected(votes, Gather(b.c, b.m, hash, votes).value)
            && |Gather(b.c, b.m, hash, votes).value| == |keys|
  {
    var hash := CheckpointHash(b.c, body);
    var votes := SignedVotes(body, hash, SignedBy(b, keys, body));
    forall i | 0 <= i < |votes| ensures GoodVote(b.c, b.m, hash, votes[i]) {
      SignedVoteIsGood(b, keys, body, i);
    }
    forall i, j | 0 <= i < |votes| && 0 <= j < |votes| && votes[i].entry.witnessId == votes[j].entry.witnessId
      ensures i == j
    {
      SignedVoteIsGood(b, keys, body, i);
      SignedVoteIsGood(b, keys, body, j);
      GenuineIdIsKey(b.c, b.m, hash, votes[i].entry, votes[j].entry);
    }
    assert Consistent(b.c, b.m, hash, votes);
    GatherMeaning(b.c, b.m, hash, votes);
    CollectedCount(votes, Gather(b.c, b.m, hash, votes).value);
  }

  lemma KeptIsOffered(votes: seq<Vote>, signatures: map<string, SigEntry>, i: nat) returns (j: nat)
    requires Collected(votes, signatures) && i < |SortedEntries(signatures)|
    ensures j < |votes| && votes[j].entry == SortedEntries(signatures)[i]
  {
    var id := Sorted(signatures.Keys)[i];
    assert id in Elements(Sorted(signatures.Keys));
    var v :| v in votes && v.entry.witnessId == id;
    j :| 0 <= j < |votes| && votes[j] == v;
  }

  lemma KeptSigners(b: Board, keys: seq<string>, body: CheckpointBody, signatures: map<string, SigEntry>)
    requires SoundBoard(b) && DifferentWitnesses(b.m, keys) && ValidBody(body)
    requires Collected(SignedVotes(body, CheckpointHash(b.c, body), SignedBy(b, keys, body)), signatures)
    ensures forall e | e in SortedEntries(signatures) :: e.publicKey in keys
  {
    var entries := SortedEntries(signatures);
    forall e | e in entries ensures e.publicKey in keys {
      var i :| 0 <= i < |entries| && entries[i] == e;
      var j := KeptIsOffered(SignedVotes(body, CheckpointHash(b.c, body), SignedBy(b, keys, body)), signatures, i);
      SignedVoteIsGood(b, keys, body, j);
    }
  }

  lemma CombinedFrom(b: Board, items: seq<SignedCheckpoint>, body: CheckpointBody, signatures: map<string, SigEntry>)
    requires SoundBoard(b) && ValidBody(body) && BodyError(b.c, b.m, body) == None
    requires items != [] && items[0].checkpoint == body && |signatures| >= WITNESS_QUORUM
    requires Gather(b.c, b.m, CheckpointHash(b.c, body), SignedVotes(body, CheckpointHash(b.c, body), items)) == Success(signatures)
    ensures CombinedCheckpoint(b.c, b.m, items) ==
            Success(QuorumCheckpoint(body, CheckpointHash(b.c, body), QUORUM_CHECKPOINT_SCHEMA,
                                     WithHash(CheckpointHash(b.c, body), SortedEntries(signatures))))
  {
  }

  /** Checkpoints signed over one set of records by three or more different Witnesses always combine,
      and every signature that is kept is one of theirs. */
  lemma SignedCheckpointsCombine(b: Board, keys: seq<string>, ids: set<string>)
    requires SoundBoard(b) && DifferentWitnesses(b.m, keys) && |keys| >= WITNESS_QUORUM
    requires ValidBody(BodyOver(b, ids))
    ensures var body := BodyOver(b, ids); var r := CombinedCheckpoint(b.c, b.m, SignedBy(b, keys, body));
            && r.Success? && r.value.checkpoint == body && r.value.checkpointHash == CheckpointHash(b.c, body)
            && forall e | e in CoreEntries(r.value.signatures) :: e.publicKey in keys
  {
    var body := BodyOver(b, ids);
    var hash := CheckpointHash(b.c, body);
    var items := SignedBy(b, keys, body);
    BodyOverIsChecked(b, ids);
    SignedVotesGather(b, keys, body);
    var signatures := Gather(b.c, b.m, hash, SignedVotes(body, hash, items)).value;
    KeptSigners(b, keys, body, signatures);
    CombinedFrom(b, items, body, signatures);
  }

  /** The honest Witness has sealed, over exactly these records. */
  ghost predicate HasSealed(b: Board, w: World, key: string, ids: set<string>)
    requires SoundBoard(b)
  {
    && key in w && ValidString(key) && HeightOf(b) in w[key].checkpoints
    && Covers(b, key, w[key].checkpoints[HeightOf(b)], ids)
  }

  lemma SealedIsUnforged(b: Board, w: World, ids: set<string>, e: SigEntry)
    requires SoundBoard(b) && HasSealed(b, w, e.publicKey, ids) && ValidBody(BodyOver(b, ids))
    ensures UnforgedEntry(b, w, CheckpointHash(b.c, BodyOver(b, ids)), e)
  {
    assert Issued(b, w[e.publicKey], CheckpointHash(b.c, BodyOver(b, ids)));
  }

  lemma SignedIsPresented(b: Board, w: World, keys: seq<string>, ids: set<string>)
    requires SoundBoard(b) && DifferentWitnesses(b.m, keys) && |keys| >= WITNESS_QUORUM
    requires ValidBody(BodyOver(b, ids))
    requires forall k | k in keys :: HasSealed(b, w, k, ids)
    ensures var r := CombinedCheckpoint(b.c, b.m, SignedBy(b, keys, BodyOver(b, ids)));
            r.Success? && r.value.checkpoint == BodyOver(b, ids) && PresentedCheckpoint(b, w, r.value)
  {
    SignedCheckpointsCombine(b, keys, ids);
    CombinedCheckpointVerifies(b.c, b.m, SignedBy(b, keys, BodyOver(b, ids)));
    var q := CombinedCheckpoint(b.c, b.m, SignedBy(b, keys, BodyOver(b, ids))).value;
    forall e | e in CoreEntries(q.signatures) ensures UnforgedEntry(b, w, q.checkpointHash, e) {
      SealedIsUnforged(b, w, ids, e);
    }
  }

  /** What a Witness answers, again and again, once it has sealed. */
  function AnswerOf(b: Board, w: World, key: string): Option<SignedCheckpoint>
  {
    if key in w && HeightOf(b) in w[key].checkpoints then Some(w[key].checkpoints[HeightOf(b)].response) else None
  }

  lemma AnswersAreSigned(b: Board, w: World, keys: seq<string>, ids: set<string>, answers: seq<SignedCheckpoint>)
    requires SoundBoard(b) && DifferentWitnesses(b.m, keys) && ValidBody(BodyOver(b, ids))
    requires forall k | k in keys :: HasSealed(b, w, k, ids)
    requires |answers| == |keys| && forall i | 0 <= i < |keys| :: AnswerOf(b, w, keys[i]) == Some(answers[i])
    ensures answers == SignedBy(b, keys, BodyOver(b, ids))
  {
    forall i | 0 <= i < |keys| ensures answers[i] == SignBody(b, keys[i], BodyOver(b, ids)) {
      assert HasSealed(b, w, keys[i], ids);
    }
  }

  /** Once three honest stores have sealed over the same records, their answers combine to a quorum
      checkpoint that every verifier accepts and that holds no forged signature. */
  lemma AgreeingStoresSeal(b: Board, w: World, keys: seq<string>, ids: set<string>, answers: seq<SignedCheckpoint>)
    requires SoundBoard(b) && DifferentWitnesses(b.m, keys) && |keys| >= WITNESS_QUORUM && ValidBody(BodyOver(b, ids))
    requires forall k | k in keys :: HasSealed(b, w, k, ids)
    requires |answers| == |keys| && forall i | 0 <= i < |keys| :: AnswerOf(b, w, keys[i]) == Some(answers[i])
    ensures var r := CombinedCheckpoint(b.c, b.m, answers);
            r.Success? && r.value.checkpoint == BodyOver(b, ids) && PresentedCheckpoint(b, w, r.value)
  {
    AnswersAreSigned(b, w, keys, ids, answers);
    SignedIsPresented(b, w, keys, ids);
  }

  /** A store that has not sealed yet seals over what it has receipts for. */
  lemma FirstSeal(b: Board, key: string, t: Tables)
    requires SoundBoard(b) && ValidString(key) && StoreInv(b, key, t)
    requires HeightOf(b) !in t.checkpoints && |ReceiptedIds(t)| <= MAX_SAFE_INTEGER
    ensures var (r, t') := CheckpointStep(b, key, t, CutoffHash(b.c, b.m), 1, b.m.genesis);
            && r.Success? && HeightOf(b) in t'.checkpoints
            && Covers(b, key, t'.checkpoints[HeightOf(b)], ReceiptedIds(t))
  {
    BodyOverIsChecked(b, ReceiptedIds(t));
    CheckedBodyIsText(b.c, b.m, BodyOver(b, ReceiptedIds(t)));
  }
}

/** The signed objects of the board and the JSON each of them is hashed as. */
module Statements {
  import opened CanonicalJson
  import opened JsonObjects
  import opened Hashing

  const ACCEPTANCE_SCHEMA := "vsdp-board-acceptance/1"
  const WITNESS_ACCEPTANCE_SCHEMA := "vsdp-witness-acceptance/1"
  const RECEIPT_SCHEMA := "vsdp-quorum-receipt/1"
  const CHECKPOINT_SCHEMA := "vsdp-checkpoint/1"
  const CHECKPOINT_SIGNATURE_SCHEMA := "vsdp-checkpoint-signature/1"
  const QUORUM_CHECKPOINT_SCHEMA := "vsdp-quorum-checkpoint/1"

  // ------------------------------------------------- acceptance statements

  datatype Statement = Statement(
    candidateDigest: string,
    decisionId: string,
    epoch: string,
    nullifier: string,
    profileId: string,
    recordId: string,
    schema: string)

  const STATEMENT_KEYS := [
    "candidate_digest", "decision_id", "epoch", "nullifier", "profile_id", "record_id", "schema"]

  lemma StatementKeysAreValid(i: nat)
    requires i < 7
    ensures ValidString(STATEMENT_KEYS[i])
  {
    assert i < 3 || 3 <= i;
  }

  lemma StatementKeysAreDistinct()
    ensures Distinct(STATEMENT_KEYS)
  {
  }

  lemma StatementKeysAreGood()
    ensures GoodKeys(STATEMENT_KEYS)
  {
    StatementKeysAreDistinct();
    forall i | 0 <= i < |STATEMENT_KEYS| ensures ValidString(STATEMENT_KEYS[i]) {
      StatementKeysAreValid(i);
    }
  }

  function StatementValues(s: Statement): seq<Json>
  {
    [Str(s.candidateDigest), Str(s.decisionId), Str(s.epoch), Str(s.nullifier),
     Str(s.profileId), Str(s.recordId), Str(s.schema)]
  }

  function StatementJson(s: Statement): Json
  {
    StatementKeysAreDistinct();
    Dict(STATEMENT_KEYS, StatementValues(s))
  }

  predicate ValidStatement(s: Statement)
  {
    && ValidString(s.candidateDigest) && ValidString(s.decisionId) && ValidString(s.epoch)
    && ValidString(s.nullifier) && ValidString(s.profileId) && ValidString(s.recordId)
    && ValidString(s.schema)
  }

  lemma StatementValuesAreValid(s: Statement)
    ensures (forall i | 0 <= i < 7 :: Valid(StatementValues(s)[i])) <==> ValidStatement(s)
  {
    var v := StatementValues(s);
    if forall i | 0 <= i < 7 :: Valid(v[i]) {
      assert Valid(v[0]) && Valid(v[1]) && Valid(v[2]) && Valid(v[3]) && Valid(v[4]) && Valid(v[5]) && Valid(v[6]);
    }
  }

  lemma StatementJsonIsValid(s: Statement)
    ensures Valid(StatementJson(s)) <==> ValidStatement(s)
  {
    StatementKeysAreGood();
    StatementValuesAreValid(s);
    DictIsValid(STATEMENT_KEYS, StatementValues(s));
  }

  lemma StatementJsonIsInjective(s: Statement, t: Statement)
    requires StatementJson(s) == StatementJson(t)
    ensures s == t
  {
    StatementKeysAreGood();
    var v, w := StatementValues(s), StatementValues(t);
    DictIsInjective(STATEMENT_KEYS, v, w);
    assert v[0] == w[0] && v[1] == w[1] && v[2] == w[2] && v[3] == w[3];
    assert v[4] == w[4] && v[5] == w[5] && v[6] == w[6];
  }

  const ACCEPT_TAG := "vsdp/board-accept/v1"
  const CHECKPOINT_TAG := "vsdp/checkpoint/v1"
  const RECEIPT_TAG := "vsdp/quorum-receipt/v1"

  /** The bytes a Witness signs when it accepts a ballot. */
  function AcceptanceMessage(c: Crypto, s: Statement): string
    requires ValidStatement(s)
  {
    StatementJsonIsValid(s);
    DomainHash(c, ACCEPT_TAG, StatementJson(s))
  }

  lemma AcceptanceMessageIsInjective(c: Crypto, s: Statement, t: Statement)
    requires Ideal(c) && ValidStatement(s) && ValidStatement(t)
    requires AcceptanceMessage(c, s) == AcceptanceMessage(c, t)
    ensures s == t
  {
    StatementJsonIsValid(s);
    StatementJsonIsValid(t);
    DomainHashIsInjective(c, ACCEPT_TAG, StatementJson(s), ACCEPT_TAG, StatementJson(t));
    StatementJsonIsInjective(s, t);
  }

  // ------------------------------------------------------- checkpoint bodies

  datatype CheckpointBody = CheckpointBody(
    acceptedBallotRoot: string,
    challengeAuditRoot: string,
    cutoffStatementHash: string,
    decisionId: string,
    disputeRoot: string,
    epoch: string,
    height: int,
    previousCheckpointHash: string,
    profileId: string,
    recordCount: int,
    recordSetRoot: string,
    schema: string)

  const CHECKPOINT_KEYS := [
    "accepted_ballot_root", "challenge_audit_root", "cutoff_statement_hash", "decision_id",
    "dispute_root", "epoch", "height", "previous_checkpoint_hash",
    "profile_id", "record_count", "record_set_root", "schema"]

  lemma CheckpointKeysAreValid(i: nat)
    requires i < 12
    ensures ValidString(CHECKPOINT_KEYS[i])
  {
    if i < 6 {
      assert i < 3 || 3 <= i;
    } else {
      assert i < 9 || 9 <= i;
    }
  }

  lemma CheckpointKeysAreDistinct()
    ensures Distinct(CHECKPOINT_KEYS)
  {
  }

  lemma CheckpointKeysAreGood()
    ensures GoodKeys(CHECKPOINT_KEYS)
  {
    CheckpointKeysAreDistinct();
    forall i | 0 <= i < |CHECKPOINT_KEYS| ensures ValidString(CHECKPOINT_KEYS[i]) {
      CheckpointKeysAreValid(i);
    }
  }

  function CheckpointValues(b: CheckpointBody): seq<Json>
  {
    [Str(b.acceptedBallotRoot), Str(b.challengeAuditRoot), Str(b.cutoffStatementHash), Str(b.decisionId),
     Str(b.disputeRoot), Str(b.epoch), Int(b.height), Str(b.previousCheckpointHash),
     Str(b.profileId), Int(b.recordCount), Str(b.recordSetRoot), Str(b.schema)]
  }

  function CheckpointJson(b: CheckpointBody): Json
  {
    CheckpointKeysAreDistinct();
    Dict(CHECKPOINT_KEYS, CheckpointValues(b))
  }

  /** The body has a canonical text, hence a hash. */
  predicate ValidBody(b: CheckpointBody)
  {
    && ValidString(b.acceptedBallotRoot) && ValidString(b.challengeAuditRoot)
    && ValidString(b.cutoffStatementHash) && ValidString(b.decisionId) && ValidString(b.disputeRoot)
    && ValidString(b.epoch) && -MAX_SAFE_INTEGER <= b.height <= MAX_SAFE_INTEGER
    && ValidString(b.previousCheckpointHash) && ValidString(b.profileId)
    && -MAX_SAFE_INTEGER <= b.recordCount <= MAX_SAFE_INTEGER
    && ValidString(b.recordSetRoot) && ValidString(b.schema)
  }

  lemma CheckpointValuesAreValid(b: CheckpointBody)
    ensures (forall i | 0 <= i < 12 :: Valid(CheckpointValues(b)[i])) <==> ValidBody(b)
  {
    var v := CheckpointValues(b);
    if forall i | 0 <= i < 12 :: Valid(v[i]) {
      assert Valid(v[0]) && Valid(v[1]) && Valid(v[2]) && Valid(v[3]) && Valid(v[4]) && Valid(v[5]);
      assert Valid(v[6]) && Valid(v[7]) && Valid(v[8]) && Valid(v[9]) && Valid(v[10]) && Valid(v[11]);
    }
  }

  lemma CheckpointJsonIsValid(b: CheckpointBody)
    ensures Valid(CheckpointJson(b)) <==> ValidBody(b)
  {
    CheckpointKeysAreGood();
    CheckpointValuesAreValid(b);
    DictIsValid(CHECKPOINT_KEYS, CheckpointValues(b));
  }

  lemma CheckpointJsonIsInjective(a: CheckpointBody, b: CheckpointBody)
    requires CheckpointJson(a) == CheckpointJson(b)
    ensures a == b
  {
    CheckpointKeysAreDistinct();
    var v, w := CheckpointValues(a), CheckpointValues(b);
    DictIsInjective(CHECKPOINT_KEYS, v, w);
    assert v[0] == w[0] && v[1] == w[1] && v[2] == w[2] && v[3] == w[3];
    assert v[4] == w[4] && v[5] == w[5] && v[6] == w[6] && v[7] == w[7];
    assert v[8] == w[8] && v[9] == w[9] && v[10] == w[10] && v[11] == w[11];
  }

  /** The checkpoint hash, which is also the message a Witness signs for the checkpoint. */
  function CheckpointHash(c: Crypto, b: CheckpointBody): string
    requires ValidBody(b)
  {
    CheckpointJsonIsValid(b);
    DomainHash(c, CHECKPOINT_TAG, CheckpointJson(b))
  }

  lemma CheckpointHashIsInjective(c: Crypto, a: CheckpointBody, b: CheckpointBody)
    requires Ideal(c) && ValidBody(a) && ValidBody(b)
    requires CheckpointHash(c, a) == CheckpointHash(c, b)
    ensures a == b
  {
    CheckpointJsonIsValid(a);
    CheckpointJsonIsValid(b);
    DomainHashIsInjective(c, CHECKPOINT_TAG, CheckpointJson(a), CHECKPOINT_TAG, CheckpointJson(b));
    CheckpointJsonIsInjective(a, b);
  }

  lemma TagsDiffer()
    ensures IsTag(ACCEPT_TAG) && IsTag(CHECKPOINT_TAG) && ACCEPT_TAG != CHECKPOINT_TAG
  {
    assert ACCEPT_TAG[5] != CHECKPOINT_TAG[5];
  }

  /** A signature on an acceptance never passes for a signature on a checkpoint. */
  lemma MessagesAreSeparate(c: Crypto, s: Statement, b: CheckpointBody)
    requires Ideal(c) && ValidStatement(s) && ValidBody(b)
    ensures AcceptanceMessage(c, s) != CheckpointHash(c, b)
  {
    StatementJsonIsValid(s);
    CheckpointJsonIsValid(b);
    TagsDiffer();
    if AcceptanceMessage(c, s) == CheckpointHash(c, b) {
      DomainHashIsInjective(c, ACCEPT_TAG, StatementJson(s), CHECKPOINT_TAG, CheckpointJson(b));
    }
  }

  // --------------------------------------------------------------- signatures

  datatype SigEntry = SigEntry(publicKey: string, signature: string, witnessId: string)

  const ENTRY_KEYS := ["public_key", "signature", "witness_id"]

  lemma EntryKeysAreGood()
    ensures GoodKeys(ENTRY_KEYS)
  {
  }

  function EntryJson(e: SigEntry): Json
  {
    EntryKeysAreGood();
    Dict(ENTRY_KEYS, [Str(e.publicKey), Str(e.signature), Str(e.witnessId)])
  }

  datatype Receipt = Receipt(receiptId: string, schema: string, signatures: seq<SigEntry>, statement: Statement)

  const RECEIPT_KEYS := ["schema", "signatures", "statement"]

  lemma ReceiptKeysAreGood()
    ensures GoodKeys(RECEIPT_KEYS)
  {
  }

  function UnsignedReceiptValues(r: Receipt): seq<Json>
  {
    [Str(r.schema), Arr(seq(|r.signatures|, i requires 0 <= i < |r.signatures| => EntryJson(r.signatures[i]))),
     StatementJson(r.statement)]
  }

  /** The receipt without its own id. */
  function UnsignedReceiptJson(r: Receipt): Json
  {
    ReceiptKeysAreGood();
    Dict(RECEIPT_KEYS, UnsignedReceiptValues(r))
  }

  lemma ReceiptValuesAreValid(r: Receipt)
    requires Valid(UnsignedReceiptJson(r))
    ensures forall i | 0 <= i < 3 :: Valid(UnsignedReceiptValues(r)[i])
  {
    ReceiptKeysAreGood();
    DictIsValid(RECEIPT_KEYS, UnsignedReceiptValues(r));
  }

  lemma EntryJsonIsInjective(e: SigEntry, f: SigEntry)
    requires EntryJson(e) == EntryJson(f)
    ensures e == f
  {
    EntryKeysAreGood();
    var v, w := [Str(e.publicKey), Str(e.signature), Str(e.witnessId)], [Str(f.publicKey), Str(f.signature), Str(f.witnessId)];
    DictIsInjective(ENTRY_KEYS, v, w);
    assert v[0] == w[0] && v[1] == w[1] && v[2] == w[2];
  }

  lemma UnsignedReceiptIsInjective(r: Receipt, r': Receipt)
    requires UnsignedReceiptJson(r) == UnsignedReceiptJson(r')
    ensures r.statement == r'.statement && r.signatures == r'.signatures && r.schema == r'.schema
  {
    ReceiptKeysAreGood();
    var v, w := UnsignedReceiptValues(r), UnsignedReceiptValues(r');
    DictIsInjective(RECEIPT_KEYS, v, w);
    assert v[0] == w[0] && v[1] == w[1] && v[2] == w[2];
    StatementJsonIsInjective(r.statement, r'.statement);
    assert |r.signatures| == |v[1].items| == |w[1].items| == |r'.signatures|;
    forall i | 0 <= i < |r.signatures| ensures r.signatures[i] == r'.signatures[i] {
      assert v[1].items[i] == w[1].items[i];
      EntryJsonIsInjective(r.signatures[i], r'.signatures[i]);
    }
  }

  predicate ValidEntry(e: SigEntry)
  {
    ValidString(e.publicKey) && ValidString(e.signature) && ValidString(e.witnessId)
  }

  lemma EntryJsonIsValid(e: SigEntry)
    requires ValidEntry(e)
    ensures Valid(EntryJson(e))
  {
    EntryKeysAreGood();
    DictIsValid(ENTRY_KEYS, [Str(e.publicKey), Str(e.signature), Str(e.witnessId)]);
  }

  lemma ReceiptJsonIsValid(r: Receipt)
    requires ValidString(r.schema) && ValidStatement(r.statement)
    requires forall i | 0 <= i < |r.signatures| :: ValidEntry(r.signatures[i])
    ensures Valid(UnsignedReceiptJson(r))
  {
    ReceiptKeysAreGood();
    forall i | 0 <= i < |r.signatures| ensures Valid(EntryJson(r.signatures[i])) {
      EntryJsonIsValid(r.signatures[i]);
    }
    StatementJsonIsValid(r.statement);
    var values := UnsignedReceiptValues(r);
    assert Valid(values[0]) && Valid(values[1]) && Valid(values[2]);
    DictIsValid(RECEIPT_KEYS, values);
  }
}

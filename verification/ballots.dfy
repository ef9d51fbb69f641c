/** Ballot records: their checks, their ids and the statement a Witness makes about them. */
module Ballots {
  import opened Outcomes
  import opened CanonicalJson
  import opened JsonObjects
  import opened Hashing
  import opened Manifests
  import opened Statements
  import opened Receipts

  /** The ideal primitives, the frozen manifest and the (arbitrary, deterministic) proof verifier. */
  datatype Board = Board(c: Crypto, m: Manifest, proof: Json -> bool)

  ghost predicate SoundBoard(b: Board)
  {
    Sound(b.c, b.m)
  }

  const BALLOT_SCHEMA := "vsdp-ballot/1"
  const BALLOT_FIELDS := {
    "candidate_digest", "candidate_record", "decision_id", "eligibility_proof",
    "nullifier", "profile_id", "schema"}

  const BINDING_TAG := "vsdp/ballot-binding/v1"
  const RECORD_TAG := "vsdp/board-record/v1"
  const BINDING_KEYS := [
    "candidate_record", "decision_id", "final_manifest_hash", "profile_id", "tally_public_key_id"]

  lemma BindingKeysAreValid(i: nat)
    requires i < 5
    ensures ValidString(BINDING_KEYS[i])
  {
    assert i < 2 || 2 <= i;
  }

  lemma BindingKeysAreDistinct()
    ensures Distinct(BINDING_KEYS)
  {
  }

  lemma BindingKeysAreGood()
    ensures GoodKeys(BINDING_KEYS)
  {
    BindingKeysAreDistinct();
    forall i | 0 <= i < |BINDING_KEYS| ensures ValidString(BINDING_KEYS[i]) {
      BindingKeysAreValid(i);
    }
  }

  function BindingValues(m: Manifest, candidate: Json): seq<Json>
  {
    [candidate, Str(m.decisionId), Str(m.manifestHash), Str(PROFILE_ID), Str(m.tallyKeyId)]
  }

  function BindingJson(m: Manifest, candidate: Json): Json
  {
    BindingKeysAreGood();
    Dict(BINDING_KEYS, BindingValues(m, candidate))
  }

  lemma BindingJsonIsValid(c: Crypto, m: Manifest, candidate: Json)
    requires Sound(c, m) && Valid(candidate)
    ensures Valid(BindingJson(m, candidate))
  {
    BindingKeysAreGood();
    BindingValuesAreValid(c, m, candidate);
    DictIsValid(BINDING_KEYS, BindingValues(m, candidate));
  }

  lemma BindingValuesAreValid(c: Crypto, m: Manifest, candidate: Json)
    requires Sound(c, m) && Valid(candidate)
    ensures forall i | 0 <= i < 5 :: Valid(BindingValues(m, candidate)[i])
  {
    LiteralsAreText();
    DigestIsText(c, m.decisionId);
    DigestIsText(c, m.manifestHash);
    DigestIsText(c, m.tallyKeyId);
  }

  /** `candidate_digest` of a candidate that has a canonical text. */
  function CandidateDigest(c: Crypto, m: Manifest, candidate: Json): string
    requires Sound(c, m) && Valid(candidate)
  {
    BindingJsonIsValid(c, m, candidate);
    DomainHash(c, BINDING_TAG, BindingJson(m, candidate))
  }

  /** `validate_ballot_structure`: the error it raises, if any. */
  function BallotError(c: Crypto, m: Manifest, record: Json): Option<Error>
    requires Sound(c, m)
  {
    if !record.Obj? || record.fields.Keys != BALLOT_FIELDS then Some(NonCanonical)
    else
      var f := record.fields;
      if f["schema"] != Str(BALLOT_SCHEMA) || f["profile_id"] != Str(PROFILE_ID) then Some(ContextMismatch)
      else if f["decision_id"] != Str(m.decisionId) then Some(ContextMismatch)
      else if !f["candidate_digest"].Str? || !c.isDigest(f["candidate_digest"].s) then Some(NonCanonical)
      else if !f["candidate_record"].Obj? || !Valid(f["candidate_record"]) then Some(NonCanonical)
      else if f["candidate_digest"].s != CandidateDigest(c, m, f["candidate_record"]) then Some(CandidateDigestMismatch)
      else if !f["nullifier"].Str? || !MinimalDecimal(f["nullifier"].s) then Some(NonCanonical)
      else if !f["eligibility_proof"].Obj? then Some(NonCanonical)
      else None
  }

  /** An object with exactly the seven fields of a ballot. */
  predicate HasBallotFields(record: Json)
  {
    record.Obj? && record.fields.Keys == {
      "schema", "profile_id", "decision_id", "candidate_record", "candidate_digest", "nullifier", "eligibility_proof"}
  }

  predicate InBallotContext(m: Manifest, record: Json)
    requires HasBallotFields(record)
  {
    && record.fields["schema"] == Str(BALLOT_SCHEMA) && record.fields["profile_id"] == Str(PROFILE_ID)
    && record.fields["decision_id"] == Str(m.decisionId)
  }

  predicate HasCandidate(c: Crypto, record: Json)
    requires HasBallotFields(record)
  {
    && record.fields["candidate_record"].Obj? && Valid(record.fields["candidate_record"])
    && record.fields["candidate_digest"].Str? && c.isDigest(record.fields["candidate_digest"].s)
  }

  /** The digest is that of the candidate in this record, for this manifest. */
  predicate BindsCandidate(c: Crypto, m: Manifest, record: Json)
    requires Sound(c, m) && HasBallotFields(record) && Valid(record.fields["candidate_record"])
  {
    record.fields["candidate_digest"] == Str(CandidateDigest(c, m, record.fields["candidate_record"]))
  }

  ghost predicate HasNullifierAndProof(record: Json)
    requires HasBallotFields(record)
  {
    && record.fields["nullifier"].Str? && IsNumeral(record.fields["nullifier"].s)
    && record.fields["eligibility_proof"].Obj?
  }

  /** What a ballot record of this decision is. */
  ghost predicate WellFormedBallot(c: Crypto, m: Manifest, record: Json)
    requires Sound(c, m)
  {
    && HasBallotFields(record) && InBallotContext(m, record)
    && record.fields["candidate_record"].Obj? && Valid(record.fields["candidate_record"])
    && BindsCandidate(c, m, record) && HasNullifierAndProof(record)
  }

  lemma CandidateDigestIsDigest(c: Crypto, m: Manifest, candidate: Json)
    requires Sound(c, m) && Valid(candidate)
    ensures c.isDigest(CandidateDigest(c, m, candidate))
  {
    BindingJsonIsValid(c, m, candidate);
    DomainHashIsDigest(c, BINDING_TAG, BindingJson(m, candidate));
  }

  /** The records that pass, and the error for the first thing that is wrong with any other one. */
  lemma BallotErrorMeaning(c: Crypto, m: Manifest, record: Json)
    requires Sound(c, m)
    ensures BallotError(c, m, record) == None <==> WellFormedBallot(c, m, record)
    ensures !HasBallotFields(record) ==> BallotError(c, m, record) == Some(NonCanonical)
    ensures HasBallotFields(record) && !InBallotContext(m, record) ==> BallotError(c, m, record) == Some(ContextMismatch)
    ensures HasBallotFields(record) && InBallotContext(m, record) && !HasCandidate(c, record) ==>
              BallotError(c, m, record) == Some(NonCanonical)
    ensures HasBallotFields(record) && InBallotContext(m, record) && HasCandidate(c, record) && !BindsCandidate(c, m, record) ==>
              BallotError(c, m, record) == Some(CandidateDigestMismatch)
    ensures HasBallotFields(record) && InBallotContext(m, record) && HasCandidate(c, record) && BindsCandidate(c, m, record) ==>
              !HasNullifierAndProof(record) ==> BallotError(c, m, record) == Some(NonCanonical)
  {
    if HasBallotFields(record) {
      if record.fields["nullifier"].Str? {
        MinimalDecimalMeaning(record.fields["nullifier"].s);
      }
      if Valid(record.fields["candidate_record"]) {
        CandidateDigestIsDigest(c, m, record.fields["candidate_record"]);
      }
    }
  }

  /** The digest is of one candidate, and holds for one decision, manifest and tally key only. */
  lemma CandidateDigestBinds(c: Crypto, m: Manifest, candidate: Json, m': Manifest, candidate': Json)
    requires Sound(c, m) && Sound(c, m') && Valid(candidate) && Valid(candidate')
    requires CandidateDigest(c, m, candidate) == CandidateDigest(c, m', candidate')
    ensures candidate == candidate' && m.decisionId == m'.decisionId
    ensures m.manifestHash == m'.manifestHash && m.tallyKeyId == m'.tallyKeyId
  {
    BindingKeysAreGood();
    BindingJsonIsValid(c, m, candidate);
    BindingJsonIsValid(c, m', candidate');
    DomainHashIsInjective(c, BINDING_TAG, BindingJson(m, candidate), BINDING_TAG, BindingJson(m', candidate'));
    var v, w := BindingValues(m, candidate), BindingValues(m', candidate');
    DictIsInjective(BINDING_KEYS, v, w);
    assert v[0] == w[0] && v[1] == w[1] && v[2] == w[2] && v[4] == w[4];
  }

  /** A ballot record that has a canonical text. */
  ghost predicate GoodBallot(c: Crypto, m: Manifest, record: Json)
    requires Sound(c, m)
  {
    Valid(record) && WellFormedBallot(c, m, record)
  }

  function RecordId(c: Crypto, record: Json): string
    requires Valid(record)
  {
    DomainHash(c, RECORD_TAG, record)
  }

  lemma RecordIdIsInjective(c: Crypto, r: Json, s: Json)
    requires Ideal(c) && Valid(r) && Valid(s) && RecordId(c, r) == RecordId(c, s)
    ensures r == s
  {
    DomainHashIsInjective(c, RECORD_TAG, r, RECORD_TAG, s);
  }

  /** What the checks say about the two fields a statement copies. */
  lemma BallotFacts(c: Crypto, m: Manifest, record: Json)
    requires Sound(c, m) && GoodBallot(c, m, record)
    ensures record.Obj? && "nullifier" in record.fields && "candidate_digest" in record.fields
    ensures record.fields["nullifier"].Str? && MinimalDecimal(record.fields["nullifier"].s)
    ensures record.fields["candidate_digest"].Str? && c.isDigest(record.fields["candidate_digest"].s)
  {
    MinimalDecimalMeaning(record.fields["nullifier"].s);
    CandidateDigestIsDigest(c, m, record.fields["candidate_record"]);
  }

  function NullifierOf(c: Crypto, m: Manifest, record: Json): string
    requires Sound(c, m) && GoodBallot(c, m, record)
  {
    BallotFacts(c, m, record);
    record.fields["nullifier"].s
  }

  /** `acceptance_statement`. */
  function StatementOf(c: Crypto, m: Manifest, record: Json): Statement
    requires Sound(c, m) && GoodBallot(c, m, record)
  {
    BallotFacts(c, m, record);
    Statement(record.fields["candidate_digest"].s, m.decisionId, m.epoch, record.fields["nullifier"].s,
              PROFILE_ID, RecordId(c, record), ACCEPTANCE_SCHEMA)
  }

  /** The statement about a checked record passes the statement checks. */
  lemma StatementOfIsChecked(c: Crypto, m: Manifest, record: Json)
    requires Sound(c, m) && GoodBallot(c, m, record)
    ensures StatementError(c, m, StatementOf(c, m, record)) == None
    ensures ValidStatement(StatementOf(c, m, record))
  {
    BallotFacts(c, m, record);
    DomainHashIsDigest(c, RECORD_TAG, record);
    FreshStatementIsChecked(c, m, record.fields["candidate_digest"].s, record.fields["nullifier"].s, RecordId(c, record));
  }

  lemma FreshStatementIsChecked(c: Crypto, m: Manifest, digest: string, nullifier: string, recordId: string)
    requires Sound(c, m) && c.isDigest(digest) && MinimalDecimal(nullifier) && c.isDigest(recordId)
    ensures var s := Statement(digest, m.decisionId, m.epoch, nullifier, PROFILE_ID, recordId, ACCEPTANCE_SCHEMA);
            StatementError(c, m, s) == None && ValidStatement(s)
  {
    CheckedStatementIsText(
      c, m, Statement(digest, m.decisionId, m.epoch, nullifier, PROFILE_ID, recordId, ACCEPTANCE_SCHEMA));
  }
}

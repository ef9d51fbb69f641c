/** The objects that are hashed and signed, field by field. */
module WireFormats {
  import opened CanonicalJson
  import opened JsonObjects
  import opened Manifests
  import opened Statements
  import opened Checkpoints
  import opened Ballots
  import Authorizations
  import ArtifactStores
  import BusSteps

  lemma StatementFields(s: Statement)
    ensures var v := StatementJson(s);
            && |v.fields| == 7
            && HasField(v, "candidate_digest", Str(s.candidateDigest)) && HasField(v, "decision_id", Str(s.decisionId))
            && HasField(v, "epoch", Str(s.epoch)) && HasField(v, "nullifier", Str(s.nullifier))
            && HasField(v, "profile_id", Str(s.profileId)) && HasField(v, "record_id", Str(s.recordId))
            && HasField(v, "schema", Str(s.schema))
  {
    StatementKeysAreDistinct();
    DictFields(STATEMENT_KEYS, StatementValues(s));
    var v, w := StatementJson(s), StatementValues(s);
    assert HasField(v, STATEMENT_KEYS[0], w[0]) && HasField(v, STATEMENT_KEYS[1], w[1]) && HasField(v, STATEMENT_KEYS[2], w[2])
        && HasField(v, STATEMENT_KEYS[3], w[3]) && HasField(v, STATEMENT_KEYS[4], w[4]) && HasField(v, STATEMENT_KEYS[5], w[5])
        && HasField(v, STATEMENT_KEYS[6], w[6]);
  }

  lemma CheckpointFieldAt(b: CheckpointBody, i: nat)
    requires i < 12
    ensures HasField(CheckpointJson(b), CHECKPOINT_KEYS[i], CheckpointValues(b)[i]) && |CheckpointJson(b).fields| == 12
  {
    CheckpointKeysAreDistinct();
    DictFields(CHECKPOINT_KEYS, CheckpointValues(b));
  }

  lemma CheckpointRoots(b: CheckpointBody)
    ensures var v := CheckpointJson(b);
            && |v.fields| == 12
            && HasField(v, "accepted_ballot_root", Str(b.acceptedBallotRoot))
            && HasField(v, "challenge_audit_root", Str(b.challengeAuditRoot))
            && HasField(v, "dispute_root", Str(b.disputeRoot)) && HasField(v, "record_set_root", Str(b.recordSetRoot))
  {
    CheckpointFieldAt(b, 0);
    CheckpointFieldAt(b, 1);
    CheckpointFieldAt(b, 4);
    CheckpointFieldAt(b, 10);
  }

  lemma CheckpointHashes(b: CheckpointBody)
    ensures var v := CheckpointJson(b);
            && HasField(v, "cutoff_statement_hash", Str(b.cutoffStatementHash)) && HasField(v, "decision_id", Str(b.decisionId))
            && HasField(v, "previous_checkpoint_hash", Str(b.previousCheckpointHash)) && HasField(v, "epoch", Str(b.epoch))
  {
    CheckpointFieldAt(b, 2);
    CheckpointFieldAt(b, 3);
    CheckpointFieldAt(b, 7);
    CheckpointFieldAt(b, 5);
  }

  lemma CheckpointNumbers(b: CheckpointBody)
    ensures var v := CheckpointJson(b);
            && HasField(v, "height", Int(b.height)) && HasField(v, "record_count", Int(b.recordCount))
            && HasField(v, "profile_id", Str(b.profileId)) && HasField(v, "schema", Str(b.schema))
  {
    CheckpointFieldAt(b, 6);
    CheckpointFieldAt(b, 9);
    CheckpointFieldAt(b, 8);
    CheckpointFieldAt(b, 11);
  }

  lemma SignatureFields(e: SigEntry)
    ensures var v := EntryJson(e);
            && |v.fields| == 3
            && HasField(v, "public_key", Str(e.publicKey)) && HasField(v, "signature", Str(e.signature))
            && HasField(v, "witness_id", Str(e.witnessId))
  {
    EntryKeysAreGood();
    var w := [Str(e.publicKey), Str(e.signature), Str(e.witnessId)];
    DictFields(ENTRY_KEYS, w);
    var v := EntryJson(e);
    assert HasField(v, ENTRY_KEYS[0], w[0]) && HasField(v, ENTRY_KEYS[1], w[1]) && HasField(v, ENTRY_KEYS[2], w[2]);
  }

  /** What the id of a receipt is the hash of: everything else in it. */
  lemma ReceiptFields(r: Receipt)
    ensures var v := UnsignedReceiptJson(r);
            && |v.fields| == 3
            && HasField(v, "schema", Str(r.schema)) && HasField(v, "statement", StatementJson(r.statement))
            && "signatures" in v.fields && v.fields["signatures"].Arr? && |v.fields["signatures"].items| == |r.signatures|
            && forall i | 0 <= i < |r.signatures| :: v.fields["signatures"].items[i] == EntryJson(r.signatures[i])
  {
    ReceiptKeysAreGood();
    DictFields(RECEIPT_KEYS, UnsignedReceiptValues(r));
    var v, w := UnsignedReceiptJson(r), UnsignedReceiptValues(r);
    assert HasField(v, RECEIPT_KEYS[0], w[0]) && HasField(v, RECEIPT_KEYS[1], w[1]) && HasField(v, RECEIPT_KEYS[2], w[2]);
  }

  lemma BindingFields(m: Manifest, candidate: Json)
    ensures var v := BindingJson(m, candidate);
            && |v.fields| == 5
            && HasField(v, "candidate_record", candidate) && HasField(v, "decision_id", Str(m.decisionId))
            && HasField(v, "final_manifest_hash", Str(m.manifestHash)) && HasField(v, "profile_id", Str(PROFILE_ID))
            && HasField(v, "tally_public_key_id", Str(m.tallyKeyId))
  {
    BindingKeysAreDistinct();
    DictFields(BINDING_KEYS, BindingValues(m, candidate));
    var v, w := BindingJson(m, candidate), BindingValues(m, candidate);
    assert HasField(v, BINDING_KEYS[0], w[0]) && HasField(v, BINDING_KEYS[1], w[1]) && HasField(v, BINDING_KEYS[2], w[2])
        && HasField(v, BINDING_KEYS[3], w[3]) && HasField(v, BINDING_KEYS[4], w[4]);
  }

  lemma CutoffFields(m: Manifest)
    ensures var v := CutoffJson(m);
            && |v.fields| == 4
            && HasField(v, "decision_id", Str(m.decisionId)) && HasField(v, "epoch", Str(m.epoch))
            && HasField(v, "schema", Str("vsdp-cutoff-statement/1")) && HasField(v, "vote_closes_at", Str(m.closesText))
  {
    CutoffKeysAreGood();
    var w := [Str(m.decisionId), Str(m.epoch), Str("vsdp-cutoff-statement/1"), Str(m.closesText)];
    DictFields(CUTOFF_KEYS, w);
    var v := CutoffJson(m);
    assert HasField(v, CUTOFF_KEYS[0], w[0]) && HasField(v, CUTOFF_KEYS[1], w[1]) && HasField(v, CUTOFF_KEYS[2], w[2])
        && HasField(v, CUTOFF_KEYS[3], w[3]);
  }

  lemma WitnessIdFields(key: string)
    ensures |WitnessIdJson(key).fields| == 1 && HasField(WitnessIdJson(key), "public_key", Str(key))
  {
    DictFields(WITNESS_ID_KEYS, [Str(key)]);
    assert HasField(WitnessIdJson(key), WITNESS_ID_KEYS[0], [Str(key)][0]);
  }

  /** What a role signs when it contributes. */
  lemma RoleStatementFields(t: BusSteps.RoleStatement)
    ensures var v := BusSteps.RoleStatementJson(t);
            && |v.fields| == 6
            && HasField(v, "ceremony_id", Str(t.ceremonyId)) && HasField(v, "kind", Str(t.kind))
            && HasField(v, "payload_hash", Str(t.payloadHash)) && HasField(v, "profile_id", Str(t.profileId))
            && HasField(v, "role_id", Str(t.roleId)) && HasField(v, "schema", Str(t.schema))
  {
    BusSteps.StatementKeysAreDistinct();
    var keys := BusSteps.STATEMENT_KEYS;
    var w := [Str(t.ceremonyId), Str(t.kind), Str(t.payloadHash), Str(t.profileId), Str(t.roleId), Str(t.schema)];
    DictFields(keys, w);
    var v := BusSteps.RoleStatementJson(t);
    assert HasField(v, keys[0], w[0]) && HasField(v, keys[1], w[1]) && HasField(v, keys[2], w[2]);
    assert HasField(v, keys[3], w[3]) && HasField(v, keys[4], w[4]) && HasField(v, keys[5], w[5]);
  }

  lemma OptionFields(o: Authorizations.OptionAggregate)
    ensures var v := Authorizations.OptionJson(o);
            && |v.fields| == 2
            && HasField(v, "aggregate_hash", Str(o.aggregateHash)) && HasField(v, "option_id", Str(o.optionId))
  {
    Authorizations.KeysAreDistinct();
    var w := [Str(o.aggregateHash), Str(o.optionId)];
    DictFields(Authorizations.OPTION_KEYS, w);
    var v := Authorizations.OptionJson(o);
    assert HasField(v, Authorizations.OPTION_KEYS[0], w[0]) && HasField(v, Authorizations.OPTION_KEYS[1], w[1]);
  }

  /** What the hash of an authorization is taken of. */
  lemma AuthorizationFields(b: Authorizations.AuthorizationBody)
    ensures var v := Authorizations.BodyJson(b);
            && |v.fields| == 9
            && HasField(v, "accepted_count", Int(b.acceptedCount)) && HasField(v, "accepted_set_root", Str(b.acceptedSetRoot))
            && HasField(v, "decision_id", Str(b.decisionId))
            && HasField(v, "dispute_checkpoint_hash", Str(b.disputeCheckpointHash))
            && HasField(v, "final_board_root", Str(b.finalBoardRoot))
  {
    Authorizations.KeysAreDistinct();
    var keys, w := Authorizations.BODY_KEYS, Authorizations.BodyValues(b);
    DictFields(keys, w);
    var v := Authorizations.BodyJson(b);
    assert HasField(v, keys[0], w[0]) && HasField(v, keys[1], w[1]) && HasField(v, keys[2], w[2]);
    assert HasField(v, keys[3], w[3]) && HasField(v, keys[4], w[4]);
  }

  lemma AuthorizationOptions(b: Authorizations.AuthorizationBody)
    ensures var v := Authorizations.BodyJson(b);
            && HasField(v, "minimum_anonymity_set", Int(b.minimumAnonymitySet))
            && HasField(v, "option_aggregates", Arr(Authorizations.OptionJsons(b.optionAggregates)))
            && HasField(v, "profile_id", Str(b.profileId)) && HasField(v, "schema", Str(b.schema))
    ensures |Authorizations.OptionJsons(b.optionAggregates)| == |b.optionAggregates|
    ensures forall i | 0 <= i < |b.optionAggregates| ::
              Authorizations.OptionJsons(b.optionAggregates)[i] == Authorizations.OptionJson(b.optionAggregates[i])
  {
    Authorizations.KeysAreDistinct();
    var keys, w := Authorizations.BODY_KEYS, Authorizations.BodyValues(b);
    DictFields(keys, w);
    var v := Authorizations.BodyJson(b);
    assert HasField(v, keys[5], w[5]) && HasField(v, keys[6], w[6]);
    assert HasField(v, keys[7], w[7]) && HasField(v, keys[8], w[8]);
  }

  lemma IndexEntryFields(e: ArtifactStores.Entry)
    ensures var v := ArtifactStores.EntryJson(e);
            && |v.fields| == 5
            && HasField(v, "artifact_id", Str(e.artifactId)) && HasField(v, "kind", Str(e.kind))
            && HasField(v, "length", Int(e.length)) && HasField(v, "path", Str(e.path)) && HasField(v, "sha256", Str(e.sha256))
  {
    ArtifactStores.IndexKeysAreDistinct();
    var keys, w := ArtifactStores.ENTRY_KEYS, ArtifactStores.EntryValues(e);
    DictFields(keys, w);
    var v := ArtifactStores.EntryJson(e);
    assert HasField(v, keys[0], w[0]) && HasField(v, keys[1], w[1]) && HasField(v, keys[2], w[2]);
    assert HasField(v, keys[3], w[3]) && HasField(v, keys[4], w[4]);
  }

  lemma IndexFieldAt(decisionId: string, entries: seq<ArtifactStores.Entry>, status: string, i: nat)
    requires i < 7
    ensures var v := ArtifactStores.IndexBody(decisionId, entries, status);
            && |v.fields| == 7
            && HasField(v, ArtifactStores.INDEX_KEYS[i], ArtifactStores.IndexValues(decisionId, entries, status)[i])
  {
    ArtifactStores.IndexKeysAreDistinct();
    DictFields(ArtifactStores.INDEX_KEYS[..7], ArtifactStores.IndexValues(decisionId, entries, status));
  }

  /** What the root of an index is the hash of. */
  lemma IndexFields(decisionId: string, entries: seq<ArtifactStores.Entry>, status: string)
    ensures var v := ArtifactStores.IndexBody(decisionId, entries, status);
            && |v.fields| == 7
            && HasField(v, "decision_id", Str(decisionId)) && HasField(v, "entries", Arr(ArtifactStores.EntryJsons(entries)))
  {
    IndexFieldAt(decisionId, entries, status, 0);
    IndexFieldAt(decisionId, entries, status, 1);
  }

  lemma IndexCounters(decisionId: string, entries: seq<ArtifactStores.Entry>, status: string)
    ensures var v := ArtifactStores.IndexBody(decisionId, entries, status);
            HasField(v, "file_count", Int(|entries|)) && HasField(v, "total_bytes", Int(ArtifactStores.TotalBytes(entries)))
  {
    IndexFieldAt(decisionId, entries, status, 2);
    IndexFieldAt(decisionId, entries, status, 6);
  }

  lemma IndexContext(decisionId: string, entries: seq<ArtifactStores.Entry>, status: string)
    ensures var v := ArtifactStores.IndexBody(decisionId, entries, status);
            && HasField(v, "profile_id", Str(PROFILE_ID)) && HasField(v, "schema", Str("vsdp-bundle-index/1"))
            && HasField(v, "status", Str(status))
  {
    IndexFieldAt(decisionId, entries, status, 3);
    IndexFieldAt(decisionId, entries, status, 4);
    IndexFieldAt(decisionId, entries, status, 5);
  }
}

/** The Witness store as an object whose tables the three operations update. */
module WitnessStores {
  import opened Outcomes
  import opened Ordering
  import opened CanonicalJson
  import opened Merkle
  import opened Manifests
  import opened Statements
  import opened Receipts
  import opened Checkpoints
  import opened Ballots
  import opened WitnessTables
  import opened WitnessInvariant
  import opened WitnessAnswers

  class WitnessStore {
    const board: Board
    const key: string
    var records: map<string, RecordRow>
    var locks: map<LockKey, string>
    var acceptances: map<string, Acceptance>
    var receipts: map<string, ReceiptRow>
    var checkpoints: map<HeightKey, CheckpointRow>

    /** The content of the database. */
    function State(): Tables
      reads this
    {
      Tables(records, locks, acceptances, receipts, checkpoints)
    }

    ghost predicate Valid()
      reads this
    {
      && SoundBoard(board) && ValidString(key)
      && StoreInv(board, key, State())
    }

    /** Opens a database: a new one is empty, an existing one keeps the rows this Witness wrote before. */
    constructor (board: Board, key: string, database: Tables := EMPTY_TABLES)
      requires SoundBoard(board) && key in board.m.witnesses
      requires ValidString(key) && StoreInv(board, key, database)
      ensures Valid() && State() == database
      ensures this.board == board && this.key == key
    {
      this.board := board;
      this.key := key;
      records, locks, acceptances := database.records, database.locks, database.acceptances;
      receipts, checkpoints := database.receipts, database.checkpoints;
    }

    /** `__init__` refuses a key that the Final Manifest does not list. */
    static method Open(board: Board, key: string, database: Tables := EMPTY_TABLES) returns (r: Result<WitnessStore>)
      requires SoundBoard(board)
      requires ValidString(key) ==> StoreInv(board, key, database)
      ensures key !in board.m.witnesses ==> r == Failure(ContextMismatch)
      ensures key in board.m.witnesses ==> r.Success? && fresh(r.value) && r.value.Valid()
                                           && r.value.State() == database
                                           && r.value.board == board && r.value.key == key
    {
      if key !in board.m.witnesses {
        return Failure(ContextMismatch);
      }
      WitnessKeysAreText(board.c, board.m);
      var store := new WitnessStore(board, key, database);
      return Success(store);
    }

    /** The transaction of `submit`: nullifier lock, earlier acceptance, or the three inserts. */
    method Commit(rows: NewRecord) returns (r: Result<Acceptance>)
      modifies this
      ensures (r, State()) == Transact(old(State()), rows)
    {
      if rows.lock in locks && locks[rows.lock] != rows.id {
        return Failure(NullifierConflict);
      }
      if rows.id in acceptances {
        return Success(acceptances[rows.id]);
      }
      locks := locks[rows.lock := rows.id];
      records := records[rows.id := rows.row];
      acceptances := acceptances[rows.id := rows.acceptance];
      return Success(rows.acceptance);
    }

    method Submit(raw: string, now: int) returns (r: Result<Acceptance>)
      requires Valid()
      modifies this
      ensures (r, State()) == SubmitStep(board, key, old(State()), raw, now)
      ensures Valid() && SubmitKept(board, key, old(State()), r, State())
      ensures now < board.m.opensAt ==> r == Failure(VotingNotOpen)
      ensures board.m.closesAt <= now ==> r == Failure(VotingClosed)
      ensures r.Success? ==> VotingOpen(board.m, now) && exists record :: AnswersBallot(board, key, raw, record, r.value)
      ensures SubmitMeans(board, key, old(State()), raw, now, r, State())
    {
      SubmitMeaning(board, key, State(), raw, now);
      SubmitKeeps(board, key, State(), raw, now);
      var admitted := Admitted(board, raw, now);
      if admitted.Failure? {
        return Failure(admitted.error);
      }
      AdmittedIsGood(board, raw, now);
      r := Commit(RowsFor(board, key, raw, admitted.value));
    }

    /** `INSERT OR IGNORE` of a receipt row. */
    method InsertRow(receipt: Receipt)
      modifies this`receipts
      ensures State() == InsertReceipt(old(State()), receipt)
    {
      if receipt.receiptId !in receipts {
        receipts := receipts[receipt.receiptId := ReceiptRow(receipt.statement.recordId, receipt)];
      }
    }

    /** A receipt for a record that is stored already. */
    method StoreForKnown(receipt: Receipt, stored: Result<Statement>) returns (r: Result<string>)
      modifies this`receipts
      ensures (r, State()) == StoreKnown(old(State()), receipt, stored)
    {
      if stored.Failure? {
        return Failure(stored.error);
      }
      if stored.value != receipt.statement {
        return Failure(ContextMismatch);
      }
      InsertRow(receipt);
      return Success(receipt.receiptId);
    }

    /** A receipt for a record that was submitted a moment ago, in a transaction of its own. */
    method StoreForSubmitted(receipt: Receipt, accepted: Result<Acceptance>) returns (r: Result<string>)
      modifies this`receipts
      ensures (r, State()) == StoreSubmitted(old(State()), receipt, accepted)
    {
      if accepted.Failure? {
        return Failure(accepted.error);
      }
      if accepted.value.statement != receipt.statement {
        return Failure(ContextMismatch);
      }
      InsertRow(receipt);
      return Success(receipt.receiptId);
    }

    method StoreReceipt(receipt: Receipt, raw: Option<string>, now: int) returns (r: Result<string>)
      requires Valid()
      modifies this
      ensures (r, State()) == StoreReceiptStep(board, key, old(State()), receipt, raw, now)
      ensures Valid() && ReceiptKept(board, key, old(State()), receipt, r, State())
      ensures ReceiptMeans(board, old(State()), receipt, raw, now, r, State())
    {
      StoreReceiptMeaning(board, key, State(), receipt, raw, now);
      StoreReceiptKeeps(board, key, State(), receipt, raw, now);
      var verdict := VerifyReceipt(board.c, board.m, receipt);
      if verdict.Failure? {
        return verdict;
      }
      var recordId := receipt.statement.recordId;
      if recordId in records {
        r := StoreForKnown(receipt, StoredStatement(board, records[recordId].rawRecord));
      } else if raw.None? {
        return Failure(ReceiptedRecordMissing);
      } else {
        var accepted := Submit(raw.value, now);
        r := StoreForSubmitted(receipt, accepted);
      }
    }

    /** `SELECT DISTINCT record_id FROM receipts ORDER BY record_id`. */
    function ReceiptedRecordIds(): (ids: seq<string>)
      reads this
      ensures Increasing(ids) && Elements(ids) == ReceiptedIds(State())
      ensures forall listing | Increasing(listing) && Elements(listing) == ReceiptedIds(State()) :: listing == ids
    {
      SortedIsUnique(ReceiptedIds(State()));
      Sorted(ReceiptedIds(State()))
    }

    /** The body over what is receipted now. */
    method CurrentBody() returns (body: CheckpointBody)
      requires SoundBoard(board)
      ensures body == BodyOver(board, ReceiptedIds(State()))
    {
      var recordIds := ReceiptedRecordIds();
      var root, _ := ComputeRoot(board.c, recordIds);
      var emptyRoot, _ := ComputeRoot(board.c, []);
      assert Elements([]) == {};
      return CheckpointBody(root, emptyRoot, CutoffHash(board.c, board.m), board.m.decisionId, emptyRoot, board.m.epoch,
                            1, board.m.genesis, PROFILE_ID, |recordIds|, root, CHECKPOINT_SCHEMA);
    }

    /** The transaction of `checkpoint`: an earlier signature is answered again or contradicted. */
    method Seal() returns (r: Result<SignedCheckpoint>)
      requires SoundBoard(board) && ValidString(key)
      modifies this`checkpoints
      ensures (r, State()) == SealStep(board, key, old(State()))
    {
      var body := CurrentBody();
      if !ValidBody(body) {
        return Failure(NonCanonical);
      }
      var hash := CheckpointHash(board.c, body);
      var response := SignBody(board, key, body);
      if HeightOf(board) in checkpoints {
        if checkpoints[HeightOf(board)].checkpointHash != hash {
          return Failure(BoardFork);
        }
        return Success(checkpoints[HeightOf(board)].response);
      }
      checkpoints := checkpoints[HeightOf(board) := CheckpointRow(hash, response)];
      return Success(response);
    }

    method Checkpoint(cutoff: string, height: int, previous: string) returns (r: Result<SignedCheckpoint>)
      requires Valid()
      modifies this`checkpoints
      ensures (r, State()) == CheckpointStep(board, key, old(State()), cutoff, height, previous)
      ensures Valid() && CheckpointKept(board, key, old(State()), r, State())
      ensures r.Success? ==> cutoff == CutoffHash(board.c, board.m) && height == 1 && previous == board.m.genesis
      ensures CheckpointMeans(board, key, old(State()), cutoff, height, previous, r)
    {
      CheckpointMeaning(board, key, State(), cutoff, height, previous);
      CheckpointKeeps(board, key, State(), cutoff, height, previous);
      var problem := CheckpointRequestError(board, cutoff, height, previous);
      if problem.Some? {
        return Failure(problem.value);
      }
      r := Seal();
    }

    /** `load_record`: only a record that was stored can be read back, and it reads back whole. */
    method LoadRecord(recordId: string) returns (r: Result<Json>)
      requires Valid()
      ensures recordId !in records ==> r == Failure(ReceiptedRecordMissing)
      ensures recordId in records ==> r.Success? && CanonicalJson.Valid(r.value) && RecordId(board.c, r.value) == recordId
    {
      if recordId !in records {
        return Failure(ReceiptedRecordMissing);
      }
      assert GoodAt(board, key, State(), AtRecord(recordId));
      return ParseCanonical(records[recordId].rawRecord);
    }
  }
}

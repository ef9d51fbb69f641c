/** What every run of a Witness store keeps, raising calls included. */
module WitnessInvariant {
  import opened Outcomes
  import opened CanonicalJson
  import opened Merkle
  import opened Statements
  import opened Receipts
  import opened Checkpoints
  import opened Ballots
  import opened WitnessTables

  /** A place in one of the tables. */
  datatype Place =
    | AtRecord(id: string)
    | AtLock(lock: LockKey)
    | AtReceipt(receiptId: string)
    | AtHeight(height: HeightKey)

  ghost predicate HasRows(t: Tables, n: NewRecord)
  {
    && n.id in t.records && t.records[n.id] == n.row
    && n.lock in t.locks && t.locks[n.lock] == n.id
    && n.id in t.acceptances && t.acceptances[n.id] == n.acceptance
  }

  ghost predicate IsStoredAs(b: Board, key: string, t: Tables, id: string, record: Json)
    requires SoundBoard(b) && ValidString(key) && id in t.records
  {
    var raw := t.records[id].rawRecord;
    && ParseCanonical(raw) == Success(record)
    && GoodBallot(b.c, b.m, record)
    && RowsFor(b, key, raw, record).id == id
    && HasRows(t, RowsFor(b, key, raw, record))
  }

  /** A stored record is readable, checked, locked by its nullifier and accepted under its own id. */
  ghost predicate RecordStored(b: Board, key: string, t: Tables, id: string)
    requires SoundBoard(b) && ValidString(key) && id in t.records
  {
    exists record :: IsStoredAs(b, key, t, id, record)
  }

  /** A lock of this decision names a stored record with the locked nullifier. */
  ghost predicate LockHeld(b: Board, t: Tables, lock: LockKey)
    requires lock in t.locks
  {
    && lock.0 == b.m.decisionId
    && t.locks[lock] in t.records
    && t.records[t.locks[lock]].nullifier == lock.1
  }

  /** A stored receipt is valid and speaks about a stored record, in the accepted statement. */
  ghost predicate ReceiptStored(b: Board, t: Tables, id: string)
    requires SoundBoard(b) && id in t.receipts
  {
    var row := t.receipts[id];
    && GoodReceipt(b.c, b.m, row.receipt)
    && row.receipt.receiptId == id
    && row.recordId == row.receipt.statement.recordId
    && row.recordId in t.acceptances
    && t.acceptances[row.recordId].statement == row.receipt.statement
  }

  /** The signed checkpoint covers exactly this set of records. */
  ghost predicate Covers(b: Board, key: string, row: CheckpointRow, ids: set<string>)
    requires SoundBoard(b) && ValidString(key)
  {
    && ValidBody(BodyOver(b, ids))
    && row.checkpointHash == CheckpointHash(b.c, BodyOver(b, ids))
    && row.response == SignBody(b, key, BodyOver(b, ids))
  }

  ghost predicate CoversReceipted(b: Board, key: string, t: Tables, row: CheckpointRow)
    requires SoundBoard(b) && ValidString(key)
  {
    exists ids :: ids <= ReceiptedIds(t) && Covers(b, key, row, ids)
  }

  ghost predicate GoodAt(b: Board, key: string, t: Tables, x: Place)
    requires SoundBoard(b) && ValidString(key)
  {
    match x
    case AtRecord(id) =>
      && (id in t.records <==> id in t.acceptances)
      && (id in t.records ==> RecordStored(b, key, t, id))
    case AtLock(lock) => lock in t.locks ==> LockHeld(b, t, lock)
    case AtReceipt(id) => id in t.receipts ==> ReceiptStored(b, t, id)
    case AtHeight(k) => k in t.checkpoints ==> k == HeightOf(b) && CoversReceipted(b, key, t, t.checkpoints[k])
  }

  /** The store invariant: every place of every table is good. */
  ghost predicate StoreInv(b: Board, key: string, t: Tables)
    requires SoundBoard(b) && ValidString(key)
  {
    forall x: Place :: GoodAt(b, key, t, x)
  }

  ghost predicate KeptAt(t: Tables, t': Tables, x: Place)
  {
    match x
    case AtRecord(id) =>
      && (id in t.records ==> id in t'.records && t'.records[id] == t.records[id])
      && (id in t.acceptances ==> id in t'.acceptances && t'.acceptances[id] == t.acceptances[id])
    case AtLock(lock) => lock in t.locks ==> lock in t'.locks && t'.locks[lock] == t.locks[lock]
    case AtReceipt(id) => id in t.receipts ==> id in t'.receipts && t'.receipts[id] == t.receipts[id]
    case AtHeight(k) => k in t.checkpoints ==> k in t'.checkpoints && t'.checkpoints[k] == t.checkpoints[k]
  }

  /** Nothing that was written is removed or changed. */
  ghost predicate Extends(t: Tables, t': Tables)
  {
    forall x: Place :: KeptAt(t, t', x)
  }

  lemma ExtendsIsTransitive(t: Tables, u: Tables, v: Tables)
    requires Extends(t, u) && Extends(u, v)
    ensures Extends(t, v)
  {
    forall x: Place ensures KeptAt(t, v, x) {
      assert KeptAt(t, u, x) && KeptAt(u, v, x);
    }
  }

  lemma ExtendsIsReflexive(t: Tables)
    ensures Extends(t, t)
  {
    forall x: Place ensures KeptAt(t, t, x) {
    }
  }

  lemma EmptyIsGood(b: Board, key: string)
    requires SoundBoard(b) && ValidString(key)
    ensures StoreInv(b, key, EMPTY_TABLES)
  {
    forall x: Place ensures GoodAt(b, key, EMPTY_TABLES, x) {
    }
  }

  // -------------------------------------- what is stored stays good in a grown store

  lemma ReceiptedPersists(t: Tables, t': Tables)
    requires Extends(t, t')
    ensures ReceiptedIds(t) <= ReceiptedIds(t')
  {
    forall id | id in ReceiptedIds(t) ensures id in ReceiptedIds(t') {
      var k :| k in t.receipts && t.receipts[k].recordId == id;
      assert KeptAt(t, t', AtReceipt(k));
    }
  }

  lemma RecordPersists(b: Board, key: string, t: Tables, t': Tables, id: string)
    requires SoundBoard(b) && ValidString(key) && Extends(t, t')
    requires id in t.records && RecordStored(b, key, t, id)
    ensures id in t'.records && RecordStored(b, key, t', id)
  {
    var record :| IsStoredAs(b, key, t, id, record);
    var n := RowsFor(b, key, t.records[id].rawRecord, record);
    assert KeptAt(t, t', AtRecord(id)) && KeptAt(t, t', AtLock(n.lock));
    assert IsStoredAs(b, key, t', id, record);
  }

  lemma LockPersists(b: Board, t: Tables, t': Tables, lock: LockKey)
    requires Extends(t, t') && lock in t.locks && LockHeld(b, t, lock)
    ensures lock in t'.locks && LockHeld(b, t', lock)
  {
    assert KeptAt(t, t', AtLock(lock)) && KeptAt(t, t', AtRecord(t.locks[lock]));
  }

  lemma ReceiptPersists(b: Board, t: Tables, t': Tables, id: string)
    requires SoundBoard(b) && Extends(t, t') && id in t.receipts && ReceiptStored(b, t, id)
    ensures id in t'.receipts && ReceiptStored(b, t', id)
  {
    assert KeptAt(t, t', AtReceipt(id)) && KeptAt(t, t', AtRecord(t.receipts[id].recordId));
  }

  lemma HeightPersists(b: Board, key: string, t: Tables, t': Tables, row: CheckpointRow)
    requires SoundBoard(b) && ValidString(key) && Extends(t, t') && CoversReceipted(b, key, t, row)
    ensures CoversReceipted(b, key, t', row)
  {
    ReceiptedPersists(t, t');
    var ids :| ids <= ReceiptedIds(t) && Covers(b, key, row, ids);
    assert ids <= ReceiptedIds(t');
  }

  ghost predicate UnusedAt(t: Tables, x: Place)
  {
    match x
    case AtRecord(id) => id !in t.records && id !in t.acceptances
    case AtLock(lock) => lock !in t.locks
    case AtReceipt(id) => id !in t.receipts
    case AtHeight(k) => k !in t.checkpoints
  }

  /** A used place of a good store is good in every store that extends it. */
  lemma GoodPersists(b: Board, key: string, t: Tables, t': Tables, x: Place)
    requires SoundBoard(b) && ValidString(key) && Extends(t, t')
    requires GoodAt(b, key, t, x) && !UnusedAt(t, x)
    ensures GoodAt(b, key, t', x)
  {
    assert KeptAt(t, t', x);
    match x
    case AtRecord(id) => RecordPersists(b, key, t, t', id);
    case AtLock(lock) => LockPersists(b, t, t', lock);
    case AtReceipt(id) => ReceiptPersists(b, t, t', id);
    case AtHeight(k) => HeightPersists(b, key, t, t', t.checkpoints[k]);
  }

  /** Only the places that were unused before a call are left to check after it. */
  lemma InvariantFromNewPlaces(b: Board, key: string, t: Tables, t': Tables)
    requires SoundBoard(b) && ValidString(key) && StoreInv(b, key, t) && Extends(t, t')
    requires forall x: Place | UnusedAt(t, x) :: GoodAt(b, key, t', x)
    ensures StoreInv(b, key, t')
  {
    forall x: Place ensures GoodAt(b, key, t', x) {
      if !UnusedAt(t, x) {
        assert GoodAt(b, key, t, x);
        GoodPersists(b, key, t, t', x);
      }
    }
  }

  /** What one call leaves behind: a good store that lost nothing. */
  ghost predicate Keeps(b: Board, key: string, t: Tables, t': Tables)
    requires SoundBoard(b) && ValidString(key)
  {
    StoreInv(b, key, t') && Extends(t, t')
  }

  lemma UnchangedIsKept(b: Board, key: string, t: Tables)
    requires SoundBoard(b) && ValidString(key) && StoreInv(b, key, t)
    ensures Keeps(b, key, t, t)
  {
    ExtendsIsReflexive(t);
  }

  // ------------------------------------------------------------------ submit

  /** The stored statement of a stored record is the one it was accepted with. */
  lemma StoredStatementIsAccepted(b: Board, key: string, t: Tables, id: string)
    requires SoundBoard(b) && ValidString(key) && StoreInv(b, key, t) && id in t.records
    ensures id in t.acceptances
    ensures StoredStatement(b, t.records[id].rawRecord) == Success(t.acceptances[id].statement)
    ensures t.acceptances[id].statement.recordId == id
  {
    assert GoodAt(b, key, t, AtRecord(id));
    var record :| IsStoredAs(b, key, t, id, record);
    StoredAs(b, key, t, id, record);
  }

  lemma StoredAs(b: Board, key: string, t: Tables, id: string, record: Json)
    requires SoundBoard(b) && ValidString(key) && id in t.records && IsStoredAs(b, key, t, id, record)
    ensures id in t.acceptances
    ensures StoredStatement(b, t.records[id].rawRecord) == Success(t.acceptances[id].statement)
    ensures t.acceptances[id].statement.recordId == id
  {
    StoredStatementOf(b, t.records[id].rawRecord, record);
  }

  lemma AcceptedIsRecorded(b: Board, key: string, t: Tables, id: string)
    requires SoundBoard(b) && ValidString(key) && StoreInv(b, key, t)
    ensures id in t.records <==> id in t.acceptances
  {
    assert GoodAt(b, key, t, AtRecord(id));
  }

  /** A lock taken by a record that is not stored would contradict the invariant. */
  lemma UnstoredIsUnlocked(b: Board, key: string, t: Tables, lock: LockKey, id: string)
    requires SoundBoard(b) && ValidString(key) && StoreInv(b, key, t)
    requires id !in t.records && lock in t.locks
    ensures t.locks[lock] != id
  {
    assert GoodAt(b, key, t, AtLock(lock));
  }

  lemma NewRowsExtend(t: Tables, n: NewRecord)
    requires n.id !in t.records && n.id !in t.acceptances && n.lock !in t.locks
    ensures Extends(t, WithRecord(t, n)) && HasRows(WithRecord(t, n), n)
  {
    forall x: Place ensures KeptAt(t, WithRecord(t, n), x) {
    }
  }

  lemma NewRecordIsGood(b: Board, key: string, t: Tables, raw: string, record: Json, x: Place)
    requires SoundBoard(b) && ValidString(key)
    requires GoodBallot(b.c, b.m, record) && ParseCanonical(raw) == Success(record)
    requires UnusedAt(t, x)
    ensures GoodAt(b, key, WithRecord(t, RowsFor(b, key, raw, record)), x)
  {
    var n := RowsFor(b, key, raw, record);
    var t' := WithRecord(t, n);
    assert IsStoredAs(b, key, t', n.id, record);
  }

  lemma NewRecordKeeps(b: Board, key: string, t: Tables, raw: string, record: Json)
    requires SoundBoard(b) && ValidString(key) && StoreInv(b, key, t)
    requires GoodBallot(b.c, b.m, record) && ParseCanonical(raw) == Success(record)
    requires var n := RowsFor(b, key, raw, record); n.id !in t.acceptances && (n.lock in t.locks ==> t.locks[n.lock] == n.id)
    ensures Keeps(b, key, t, WithRecord(t, RowsFor(b, key, raw, record)))
  {
    var n := RowsFor(b, key, raw, record);
    AcceptedIsRecorded(b, key, t, n.id);
    if n.lock in t.locks {
      UnstoredIsUnlocked(b, key, t, n.lock, n.id);
    }
    NewRowsExtend(t, n);
    forall x: Place | UnusedAt(t, x) ensures GoodAt(b, key, WithRecord(t, n), x) {
      NewRecordIsGood(b, key, t, raw, record, x);
    }
    InvariantFromNewPlaces(b, key, t, WithRecord(t, n));
  }

  /** What `submit` promises: nothing changes on an error, and an answer is the stored acceptance. */
  ghost predicate SubmitKept(b: Board, key: string, t: Tables, r: Result<Acceptance>, t': Tables)
    requires SoundBoard(b) && ValidString(key)
  {
    && Keeps(b, key, t, t')
    && (r.Failure? ==> t' == t)
    && t'.receipts == t.receipts && t'.checkpoints == t.checkpoints
    && (r.Success? ==> r.value.statement.recordId in t'.acceptances
                       && t'.acceptances[r.value.statement.recordId] == r.value)
  }

  lemma TransactKeeps(b: Board, key: string, t: Tables, raw: string, record: Json)
    requires SoundBoard(b) && ValidString(key) && StoreInv(b, key, t)
    requires GoodBallot(b.c, b.m, record) && ParseCanonical(raw) == Success(record)
    ensures var (r, t') := Transact(t, RowsFor(b, key, raw, record)); SubmitKept(b, key, t, r, t')
  {
    var n := RowsFor(b, key, raw, record);
    if n.lock in t.locks && t.locks[n.lock] != n.id {
      UnchangedIsKept(b, key, t);
    } else if n.id in t.acceptances {
      UnchangedIsKept(b, key, t);
      AcceptedIsRecorded(b, key, t, n.id);
      StoredStatementIsAccepted(b, key, t, n.id);
    } else {
      NewRecordKeeps(b, key, t, raw, record);
      assert n.acceptance.statement.recordId == n.id;
    }
  }

  lemma SubmitKeeps(b: Board, key: string, t: Tables, raw: string, now: int)
    requires SoundBoard(b) && ValidString(key) && StoreInv(b, key, t)
    ensures var (r, t') := SubmitStep(b, key, t, raw, now); SubmitKept(b, key, t, r, t')
  {
    match Admitted(b, raw, now)
    case Failure(_) => UnchangedIsKept(b, key, t);
    case Success(record) =>
      AdmittedIsGood(b, raw, now);
      TransactKeeps(b, key, t, raw, record);
  }

  // ----------------------------------------------------------- store_receipt

  lemma InsertExtends(t: Tables, r: Receipt)
    ensures Extends(t, InsertReceipt(t, r))
  {
    forall x: Place ensures KeptAt(t, InsertReceipt(t, r), x) {
    }
  }

  lemma InsertKeeps(b: Board, key: string, t: Tables, r: Receipt)
    requires SoundBoard(b) && ValidString(key) && StoreInv(b, key, t)
    requires GoodReceipt(b.c, b.m, r)
    requires r.statement.recordId in t.acceptances
    requires t.acceptances[r.statement.recordId].statement == r.statement
    ensures Keeps(b, key, t, InsertReceipt(t, r))
  {
    var t' := InsertReceipt(t, r);
    InsertExtends(t, r);
    forall x: Place | UnusedAt(t, x) ensures GoodAt(b, key, t', x) {
    }
    InvariantFromNewPlaces(b, key, t, t');
  }

  lemma InsertedIsReceipted(b: Board, key: string, t: Tables, r: Receipt)
    requires SoundBoard(b) && ValidString(key) && StoreInv(b, key, t) && GoodReceipt(b.c, b.m, r)
    ensures r.receiptId in InsertReceipt(t, r).receipts
    ensures r.statement.recordId in ReceiptedIds(InsertReceipt(t, r))
  {
    var t' := InsertReceipt(t, r);
    if r.receiptId in t.receipts {
      assert GoodAt(b, key, t, AtReceipt(r.receiptId));
      SameReceiptId(b.c, b.m, t.receipts[r.receiptId].receipt, r);
    }
    assert t'.receipts[r.receiptId].recordId == r.statement.recordId;
  }

  /** What `store_receipt` promises: success means that receipt and record are stored. */
  ghost predicate ReceiptKept(b: Board, key: string, t: Tables, r: Receipt, v: Result<string>, t': Tables)
    requires SoundBoard(b) && ValidString(key)
  {
    && Keeps(b, key, t, t')
    && t'.checkpoints == t.checkpoints
    && (v.Success? ==> r.receiptId in t'.receipts && r.statement.recordId in ReceiptedIds(t'))
  }

  lemma StoreKnownKeeps(b: Board, key: string, t: Tables, r: Receipt, s: Statement)
    requires SoundBoard(b) && ValidString(key) && StoreInv(b, key, t)
    requires GoodReceipt(b.c, b.m, r) && r.statement.recordId in t.acceptances
    requires t.acceptances[r.statement.recordId].statement == s
    ensures var (v, t') := StoreKnown(t, r, Success(s)); ReceiptKept(b, key, t, r, v, t')
  {
    if s == r.statement {
      InsertKeeps(b, key, t, r);
      InsertedIsReceipted(b, key, t, r);
    } else {
      UnchangedIsKept(b, key, t);
    }
  }

  lemma StoreSubmittedKeeps(b: Board, key: string, t: Tables, t': Tables, r: Receipt, submitted: Result<Acceptance>)
    requires SoundBoard(b) && ValidString(key) && GoodReceipt(b.c, b.m, r)
    requires SubmitKept(b, key, t, submitted, t')
    ensures var (v, t'') := StoreSubmitted(t', r, submitted); ReceiptKept(b, key, t, r, v, t'')
  {
    if submitted.Success? && submitted.value.statement == r.statement {
      InsertKeeps(b, key, t', r);
      InsertedIsReceipted(b, key, t', r);
      ExtendsIsTransitive(t, t', InsertReceipt(t', r));
    }
  }

  lemma StoreReceiptKeeps(b: Board, key: string, t: Tables, r: Receipt, raw: Option<string>, now: int)
    requires SoundBoard(b) && ValidString(key) && StoreInv(b, key, t)
    ensures var (v, t') := StoreReceiptStep(b, key, t, r, raw, now); ReceiptKept(b, key, t, r, v, t')
  {
    ReceiptVerdictMeaning(b.c, b.m, r);
    UnchangedIsKept(b, key, t);
    if GoodReceipt(b.c, b.m, r) {
      var id := r.statement.recordId;
      if id in t.records {
        StoredStatementIsAccepted(b, key, t, id);
        StoreKnownKeeps(b, key, t, r, t.acceptances[id].statement);
      } else if raw.Some? {
        var (submitted, t') := SubmitStep(b, key, t, raw.value, now);
        SubmitKeeps(b, key, t, raw.value, now);
        StoreSubmittedKeeps(b, key, t, t', r, submitted);
      }
    }
  }

  /** The store has accepted exactly what the receipt says. */
  ghost predicate Acknowledged(t: Tables, r: Receipt)
  {
    r.statement.recordId in t.acceptances && t.acceptances[r.statement.recordId].statement == r.statement
  }

  /** Storing a receipt for an accepted record inserts it, if it is not there yet. */
  lemma InsertIsStore(b: Board, key: string, t: Tables, r: Receipt)
    requires SoundBoard(b) && ValidString(key) && StoreInv(b, key, t)
    requires GoodReceipt(b.c, b.m, r) && Acknowledged(t, r)
    ensures StoreReceiptStep(b, key, t, r, None, 0) == (Success(r.receiptId), InsertReceipt(t, r))
  {
    ReceiptVerdictMeaning(b.c, b.m, r);
    AcceptedIsRecorded(b, key, t, r.statement.recordId);
    StoredStatementIsAccepted(b, key, t, r.statement.recordId);
  }

  // -------------------------------------------------------------- checkpoint

  /** What `checkpoint` promises: an answer is the stored response, and only the lock table grows. */
  ghost predicate CheckpointKept(b: Board, key: string, t: Tables, v: Result<SignedCheckpoint>, t': Tables)
    requires SoundBoard(b) && ValidString(key)
  {
    && Keeps(b, key, t, t')
    && t'.receipts == t.receipts && t'.records == t.records && t'.acceptances == t.acceptances
    && (v.Failure? ==> t' == t)
    && (v.Success? ==> HeightOf(b) in t'.checkpoints && t'.checkpoints[HeightOf(b)].response == v.value
                       && t'.checkpoints[HeightOf(b)].checkpointHash == v.value.signature.checkpointHash)
  }

  lemma NewCheckpointKeeps(b: Board, key: string, t: Tables)
    requires SoundBoard(b) && ValidString(key) && StoreInv(b, key, t)
    requires HeightOf(b) !in t.checkpoints && ValidBody(BodyOver(b, ReceiptedIds(t)))
    ensures Keeps(b, key, t, WithCheckpoint(b, key, t, BodyOver(b, ReceiptedIds(t))))
  {
    var body := BodyOver(b, ReceiptedIds(t));
    var t' := WithCheckpoint(b, key, t, body);
    forall x: Place ensures KeptAt(t, t', x) {
    }
    assert ReceiptedIds(t') == ReceiptedIds(t);
    assert Covers(b, key, t'.checkpoints[HeightOf(b)], ReceiptedIds(t));
    assert CoversReceipted(b, key, t', t'.checkpoints[HeightOf(b)]);
    forall x: Place | UnusedAt(t, x) ensures GoodAt(b, key, t', x) {
    }
    InvariantFromNewPlaces(b, key, t, t');
  }

  lemma StoredCheckpointHash(b: Board, key: string, t: Tables)
    requires SoundBoard(b) && ValidString(key) && StoreInv(b, key, t) && HeightOf(b) in t.checkpoints
    ensures t.checkpoints[HeightOf(b)].checkpointHash == t.checkpoints[HeightOf(b)].response.signature.checkpointHash
  {
    assert GoodAt(b, key, t, AtHeight(HeightOf(b)));
  }

  lemma SealKeeps(b: Board, key: string, t: Tables)
    requires SoundBoard(b) && ValidString(key) && StoreInv(b, key, t)
    ensures var (v, t') := SealStep(b, key, t); CheckpointKept(b, key, t, v, t')
  {
    if !ValidBody(BodyOver(b, ReceiptedIds(t))) {
      UnchangedIsKept(b, key, t);
    } else if HeightOf(b) in t.checkpoints {
      SealedKeeps(b, key, t);
    } else {
      NewCheckpointKeeps(b, key, t);
    }
  }

  lemma SealedKeeps(b: Board, key: string, t: Tables)
    requires SoundBoard(b) && ValidString(key) && StoreInv(b, key, t) && HeightOf(b) in t.checkpoints
    ensures var (v, t') := SealStep(b, key, t); CheckpointKept(b, key, t, v, t')
  {
    UnchangedIsKept(b, key, t);
    StoredCheckpointHash(b, key, t);
  }

  lemma CheckpointKeeps(b: Board, key: string, t: Tables, cutoff: string, height: int, previous: string)
    requires SoundBoard(b) && ValidString(key) && StoreInv(b, key, t)
    ensures var (v, t') := CheckpointStep(b, key, t, cutoff, height, previous); CheckpointKept(b, key, t, v, t')
  {
    UnchangedIsKept(b, key, t);
    SealKeeps(b, key, t);
  }

  // ------------------------------------------------- what the invariant means

  /** A sealed checkpoint hash is the hash of a valid body. */
  lemma SealedBody(b: Board, key: string, t: Tables) returns (body: CheckpointBody)
    requires SoundBoard(b) && ValidString(key) && StoreInv(b, key, t) && HeightOf(b) in t.checkpoints
    ensures ValidBody(body) && t.checkpoints[HeightOf(b)].checkpointHash == CheckpointHash(b.c, body)
  {
    assert GoodAt(b, key, t, AtHeight(HeightOf(b)));
    var ids :| ids <= ReceiptedIds(t) && Covers(b, key, t.checkpoints[HeightOf(b)], ids);
    body := BodyOver(b, ids);
  }

  /** A record that is accepted under its id is accepted with its own statement. */
  lemma AcceptedAsItself(b: Board, key: string, t: Tables, record: Json)
    requires SoundBoard(b) && ValidString(key) && StoreInv(b, key, t) && GoodBallot(b.c, b.m, record)
    requires StatementOf(b.c, b.m, record).recordId in t.acceptances
    ensures t.acceptances[StatementOf(b.c, b.m, record).recordId].statement == StatementOf(b.c, b.m, record)
  {
    var id := StatementOf(b.c, b.m, record).recordId;
    assert GoodAt(b, key, t, AtRecord(id));
    var record' :| IsStoredAs(b, key, t, id, record');
    RecordIdIsInjective(b.c, record, record');
  }

  /** Locks and stored records correspond one to one, each lock under its record's nullifier. */
  lemma LocksMatchRecords(b: Board, key: string, t: Tables)
    requires SoundBoard(b) && ValidString(key) && StoreInv(b, key, t)
    ensures t.records.Keys == t.acceptances.Keys == t.locks.Values
    ensures forall k, l | k in t.locks && l in t.locks && t.locks[k] == t.locks[l] :: k == l
    ensures forall k | k in t.locks :: t.locks[k] in t.records && k == (b.m.decisionId, t.records[t.locks[k]].nullifier)
  {
    forall id ensures id in t.records <==> id in t.acceptances {
      AcceptedIsRecorded(b, key, t, id);
    }
    forall k | k in t.locks
      ensures t.locks[k] in t.records && k == (b.m.decisionId, t.records[t.locks[k]].nullifier)
    {
      assert GoodAt(b, key, t, AtLock(k));
    }
    forall id | id in t.records ensures id in t.locks.Values {
      assert GoodAt(b, key, t, AtRecord(id));
      var record :| IsStoredAs(b, key, t, id, record);
      var n := RowsFor(b, key, t.records[id].rawRecord, record);
      assert t.locks[n.lock] == id;
    }
  }

  /** Every receipted record is stored, under a receipt that verifies. */
  lemma ReceiptedIsStored(b: Board, key: string, t: Tables, id: string)
    requires SoundBoard(b) && ValidString(key) && StoreInv(b, key, t) && id in ReceiptedIds(t)
    ensures id in t.records && id in t.acceptances
    ensures exists r: Receipt :: r.statement.recordId == id && ReceiptVerdict(b.c, b.m, r).Success?
                                 && r.statement == t.acceptances[id].statement
  {
    var k :| k in t.receipts && t.receipts[k].recordId == id;
    assert GoodAt(b, key, t, AtReceipt(k));
    AcceptedIsRecorded(b, key, t, id);
    ReceiptVerdictMeaning(b.c, b.m, t.receipts[k].receipt);
    assert t.receipts[k].receipt.statement.recordId == id;
  }

  /** One store never accepts two records under one nullifier. */
  lemma OneAcceptancePerNullifier(b: Board, key: string, t: Tables, id: string, id': string)
    requires SoundBoard(b) && ValidString(key) && StoreInv(b, key, t)
    requires id in t.acceptances && id' in t.acceptances
    requires t.acceptances[id].statement.nullifier == t.acceptances[id'].statement.nullifier
    ensures id == id'
  {
    AcceptedIsRecorded(b, key, t, id);
    AcceptedIsRecorded(b, key, t, id');
    assert GoodAt(b, key, t, AtRecord(id)) && GoodAt(b, key, t, AtRecord(id'));
    var record :| IsStoredAs(b, key, t, id, record);
    var record' :| IsStoredAs(b, key, t, id', record');
    assert RowsFor(b, key, t.records[id].rawRecord, record).lock
        == RowsFor(b, key, t.records[id'].rawRecord, record').lock;
  }

  /** The covered set of a signed body is unique: its root determines it. */
  lemma CoveredSetIsUnique(b: Board, ids: set<string>, ids': set<string>)
    requires SoundBoard(b) && BodyOver(b, ids).recordSetRoot == BodyOver(b, ids').recordSetRoot
    ensures ids == ids'
  {
    MerkleRootIsInjective(b.c, ids, ids');
  }

  /** After sealing, the Witness answers again exactly while no further record is receipted;
      from then on it refuses with BOARD_FORK. */
  lemma ResealCondition(b: Board, key: string, t: Tables, covered: set<string>)
    requires SoundBoard(b) && ValidString(key) && StoreInv(b, key, t)
    requires HeightOf(b) in t.checkpoints && Covers(b, key, t.checkpoints[HeightOf(b)], covered)
    requires ValidBody(BodyOver(b, ReceiptedIds(t)))
    ensures SealStep(b, key, t) ==
            (if ReceiptedIds(t) == covered then Success(t.checkpoints[HeightOf(b)].response) else Failure(BoardFork), t)
  {
    if CheckpointHash(b.c, BodyOver(b, ReceiptedIds(t))) == CheckpointHash(b.c, BodyOver(b, covered)) {
      CheckpointHashIsInjective(b.c, BodyOver(b, ReceiptedIds(t)), BodyOver(b, covered));
      CoveredSetIsUnique(b, ReceiptedIds(t), covered);
    }
  }
}

/** Acceptance statements and the receipts three Witness acceptances combine into. */
module Receipts {
  import opened Outcomes
  import opened Ordering
  import opened CanonicalJson
  import opened CanonicalLaws
  import opened Hashing
  import opened Manifests
  import opened Statements
  import opened Quorums

  predicate AllDigits(s: string)
  {
    forall i | 0 <= i < |s| :: IsDigit(s[i])
  }

  /** A decimal numeral without leading zeros. */
  predicate MinimalDecimal(s: string)
  {
    s != "" && AllDigits(s) && (|s| == 1 || s[0] != '0')
  }

  /** The text is what Python's `str` prints for some natural number. */
  ghost predicate IsNumeral(s: string)
  {
    exists n: nat :: s == PrintNat(n)
  }

  /** `value.isdigit() and str(int(value)) == value`. */
  lemma MinimalDecimalMeaning(s: string)
    ensures MinimalDecimal(s) <==> IsNumeral(s)
  {
    if MinimalDecimal(s) {
      DigitsPrint(s);
    }
    if IsNumeral(s) {
      var n: nat :| s == PrintNat(n);
      NatDigits(n);
      assert |PrintNat(n)| == 1 || s[0] != '0';
    }
  }

  /** `_validate_acceptance_statement`: the error it raises, if any. */
  function StatementError(c: Crypto, m: Manifest, s: Statement): Option<Error>
  {
    if s.schema != ACCEPTANCE_SCHEMA || s.profileId != PROFILE_ID then Some(ContextMismatch)
    else if !c.isDigest(s.candidateDigest) || !c.isDigest(s.recordId) then Some(NonCanonical)
    else if !MinimalDecimal(s.nullifier) then Some(NonCanonical)
    else if s.decisionId != m.decisionId || s.epoch != m.epoch then Some(ContextMismatch)
    else None
  }

  /** A statement of this decision and epoch, about a digest, a record id and a decimal nullifier. */
  ghost predicate StatementFits(c: Crypto, m: Manifest, s: Statement)
  {
    && s.schema == ACCEPTANCE_SCHEMA && s.profileId == PROFILE_ID
    && s.decisionId == m.decisionId && s.epoch == m.epoch
    && WellFormedParts(c, s)
  }

  ghost predicate WellFormedParts(c: Crypto, s: Statement)
  {
    c.isDigest(s.candidateDigest) && c.isDigest(s.recordId) && IsNumeral(s.nullifier)
  }

  /** Fitting statements pass; otherwise the first of schema, form and context that is wrong decides. */
  lemma StatementErrorMeaning(c: Crypto, m: Manifest, s: Statement)
    ensures StatementError(c, m, s) == None <==> StatementFits(c, m, s)
    ensures s.schema != ACCEPTANCE_SCHEMA || s.profileId != PROFILE_ID ==> StatementError(c, m, s) == Some(ContextMismatch)
    ensures s.schema == ACCEPTANCE_SCHEMA && s.profileId == PROFILE_ID && !WellFormedParts(c, s) ==>
              StatementError(c, m, s) == Some(NonCanonical)
    ensures WellFormedParts(c, s) && (s.decisionId != m.decisionId || s.epoch != m.epoch) ==>
              StatementError(c, m, s) == Some(ContextMismatch)
  {
    MinimalDecimalMeaning(s.nullifier);
  }

  lemma LiteralsAreText()
    ensures ValidString(ACCEPTANCE_SCHEMA) && ValidString(PROFILE_ID) && ValidString(RECEIPT_SCHEMA)
  {
  }

  lemma CheckedStatementIsText(c: Crypto, m: Manifest, s: Statement)
    requires Sound(c, m) && StatementError(c, m, s) == None
    ensures ValidStatement(s)
  {
    LiteralsAreText();
    DigestIsText(c, s.candidateDigest);
    DigestIsText(c, s.recordId);
    DigestIsText(c, m.decisionId);
    assert forall i | 0 <= i < |s.nullifier| :: IsDigit(s.nullifier[i]);
  }

  function ReceiptId(c: Crypto, r: Receipt): string
    requires Valid(UnsignedReceiptJson(r))
  {
    DomainHash(c, RECEIPT_TAG, UnsignedReceiptJson(r))
  }

  lemma ReceiptTextNeedsStatement(r: Receipt)
    requires Valid(UnsignedReceiptJson(r))
    ensures ValidStatement(r.statement)
  {
    ReceiptValuesAreValid(r);
    assert Valid(UnsignedReceiptValues(r)[2]);
    StatementJsonIsValid(r.statement);
  }

  /** `verify_receipt`. */
  function ReceiptVerdict(c: Crypto, m: Manifest, r: Receipt): Result<string>
    requires Sound(c, m)
  {
    if r.schema != RECEIPT_SCHEMA then Failure(NonCanonical)
    else if !c.isDigest(r.receiptId) then Failure(NonCanonical)
    else if !Valid(UnsignedReceiptJson(r)) then Failure(NonCanonical)
    else if r.receiptId != ReceiptId(c, r) then Failure(ContextMismatch)
    else
      match StatementError(c, m, r.statement)
      case Some(e) => Failure(e)
      case None =>
        ReceiptTextNeedsStatement(r);
        match VotesError(c, m, AcceptanceMessage(c, r.statement), PlainVotes(r.signatures))
        case Some(e) => Failure(e)
        case None => Success(r.receiptId)
  }

  method VerifyReceipt(c: Crypto, m: Manifest, r: Receipt, quorum: int := WITNESS_QUORUM)
    returns (v: Result<string>)
    requires Sound(c, m)
    ensures v == if quorum != WITNESS_QUORUM then Failure(NonCanonical) else ReceiptVerdict(c, m, r)
  {
    if quorum != WITNESS_QUORUM {
      return Failure(NonCanonical);
    }
    if r.schema != RECEIPT_SCHEMA || !c.isDigest(r.receiptId) || !Valid(UnsignedReceiptJson(r)) {
      return Failure(NonCanonical);
    }
    if r.receiptId != ReceiptId(c, r) {
      return Failure(ContextMismatch);
    }
    var problem := StatementError(c, m, r.statement);
    if problem.Some? {
      return Failure(problem.value);
    }
    ReceiptTextNeedsStatement(r);
    problem := VerifyVotes(c, m, AcceptanceMessage(c, r.statement), PlainVotes(r.signatures));
    if problem.Some? {
      return Failure(problem.value);
    }
    return Success(r.receiptId);
  }

  /** A receipt of this board: its own hash as id, a statement of this decision, a quorum of signers. */
  ghost predicate GoodReceipt(c: Crypto, m: Manifest, r: Receipt)
  {
    && r.schema == RECEIPT_SCHEMA
    && StatementFits(c, m, r.statement)
    && ValidStatement(r.statement)
    && IsQuorum(c, m, AcceptanceMessage(c, r.statement), r.signatures)
    && Valid(UnsignedReceiptJson(r))
    && r.receiptId == ReceiptId(c, r)
  }

  lemma ReceiptVerdictMeaning(c: Crypto, m: Manifest, r: Receipt)
    requires Sound(c, m)
    ensures ReceiptVerdict(c, m, r).Success? <==> GoodReceipt(c, m, r)
    ensures GoodReceipt(c, m, r) ==> ReceiptVerdict(c, m, r) == Success(r.receiptId)
  {
    StatementErrorMeaning(c, m, r.statement);
    if Valid(UnsignedReceiptJson(r)) && StatementError(c, m, r.statement) == None {
      ReceiptTextNeedsStatement(r);
      DomainHashIsDigest(c, RECEIPT_TAG, UnsignedReceiptJson(r));
      VotesErrorMeaning(c, m, AcceptanceMessage(c, r.statement), PlainVotes(r.signatures));
    }
  }

  /** A receipt id fixes the whole receipt: its statement and its signatures. */
  lemma SameReceiptId(c: Crypto, m: Manifest, r: Receipt, r': Receipt)
    requires Sound(c, m) && GoodReceipt(c, m, r) && GoodReceipt(c, m, r')
    requires r.receiptId == r'.receiptId
    ensures r == r'
  {
    DomainHashIsInjective(c, RECEIPT_TAG, UnsignedReceiptJson(r), RECEIPT_TAG, UnsignedReceiptJson(r'));
    UnsignedReceiptIsInjective(r, r');
  }

  // ---------------------------------------------------------------- combining

  datatype Acceptance = Acceptance(schema: string, signature: SigEntry, statement: Statement)

  function AcceptanceVotes(items: seq<Acceptance>, statement: Statement): (votes: seq<Vote>)
    ensures |votes| == |items|
  {
    seq(|items|, i requires 0 <= i < |items| =>
      Vote(if items[i].schema == WITNESS_ACCEPTANCE_SCHEMA && items[i].statement == statement
           then None else Some(ContextMismatch),
           items[i].signature))
  }

  /** The receipt over a statement and a list of signatures. */
  function SealReceipt(c: Crypto, statement: Statement, signatures: seq<SigEntry>): Receipt
    requires Valid(UnsignedReceiptJson(Receipt("", RECEIPT_SCHEMA, signatures, statement)))
  {
    var unsigned := Receipt("", RECEIPT_SCHEMA, signatures, statement);
    unsigned.(receiptId := ReceiptId(c, unsigned))
  }

  lemma QuorumReceiptIsText(c: Crypto, m: Manifest, s: Statement, entries: seq<SigEntry>)
    requires Sound(c, m) && StatementError(c, m, s) == None && ValidStatement(s)
    requires IsQuorum(c, m, AcceptanceMessage(c, s), entries)
    ensures Valid(UnsignedReceiptJson(Receipt("", RECEIPT_SCHEMA, entries, s)))
  {
    LiteralsAreText();
    forall i | 0 <= i < |entries| ensures ValidEntry(entries[i]) {
      VerifyEntryMeaning(c, m, AcceptanceMessage(c, s), entries[i]);
    }
    ReceiptJsonIsValid(Receipt("", RECEIPT_SCHEMA, entries, s));
  }

  /** `combine_acceptances`. */
  function CombinedReceipt(c: Crypto, m: Manifest, items: seq<Acceptance>): Result<Receipt>
    requires Sound(c, m)
  {
    if items == [] then Failure(ReceiptQuorumMissing)
    else
      var s := items[0].statement;
      match StatementError(c, m, s)
      case Some(e) => Failure(e)
      case None =>
        CheckedStatementIsText(c, m, s);
        var votes := AcceptanceVotes(items, s);
        match Gather(c, m, AcceptanceMessage(c, s), votes)
        case Failure(e) => Failure(e)
        case Success(signatures) =>
          if |signatures| < WITNESS_QUORUM then Failure(ReceiptQuorumMissing)
          else
            GatheredIsQuorum(c, m, AcceptanceMessage(c, s), votes);
            QuorumReceiptIsText(c, m, s, SortedEntries(signatures));
            Success(SealReceipt(c, s, SortedEntries(signatures)))
  }

  /** The loop over the acceptances: one signature for each Witness. */
  method GatherAcceptances(c: Crypto, m: Manifest, message: string, statement: Statement, items: seq<Acceptance>)
    returns (r: Result<map<string, SigEntry>>)
    requires Sound(c, m)
    ensures r == Gather(c, m, message, AcceptanceVotes(items, statement))
  {
    ghost var votes := AcceptanceVotes(items, statement);
    var signatures: map<string, SigEntry> := map[];
    for n := 0 to |items|
      invariant Gather(c, m, message, votes[..n]) == Success(signatures)
    {
      var item := items[n];
      GatherStep(c, m, message, votes, n, signatures);
      if item.schema != WITNESS_ACCEPTANCE_SCHEMA || item.statement != statement {
        GatherStops(c, m, message, votes, n + 1);
        return Failure(ContextMismatch);
      }
      var problem := VerifyEntry(c, m, message, item.signature);
      if problem.Some? {
        GatherStops(c, m, message, votes, n + 1);
        return Failure(problem.value);
      }
      var id := item.signature.witnessId;
      if id in signatures && signatures[id] != item.signature {
        GatherStops(c, m, message, votes, n + 1);
        return Failure(BoardFork);
      }
      signatures := signatures[id := item.signature];
    }
    assert votes[..|items|] == votes;
    return Success(signatures);
  }

  method CombineAcceptances(c: Crypto, m: Manifest, items: seq<Acceptance>, quorum: int := WITNESS_QUORUM)
    returns (r: Result<Receipt>)
    requires Sound(c, m)
    ensures r == if quorum != WITNESS_QUORUM then Failure(NonCanonical) else CombinedReceipt(c, m, items)
  {
    if quorum != WITNESS_QUORUM {
      return Failure(NonCanonical);
    }
    if items == [] {
      return Failure(ReceiptQuorumMissing);
    }
    var statement := items[0].statement;
    var problem := StatementError(c, m, statement);
    if problem.Some? {
      return Failure(problem.value);
    }
    CheckedStatementIsText(c, m, statement);
    var message := AcceptanceMessage(c, statement);
    var gathered := GatherAcceptances(c, m, message, statement, items);
    if gathered.Failure? {
      return Failure(gathered.error);
    }
    var signatures := gathered.value;
    if |signatures| < WITNESS_QUORUM {
      return Failure(ReceiptQuorumMissing);
    }
    GatheredIsQuorum(c, m, message, AcceptanceVotes(items, statement));
    QuorumReceiptIsText(c, m, statement, SortedEntries(signatures));
    return Success(SealReceipt(c, statement, SortedEntries(signatures)));
  }

  /** Whatever combines is accepted, under its own id. */
  lemma CombinedReceiptVerifies(c: Crypto, m: Manifest, items: seq<Acceptance>)
    requires Sound(c, m) && CombinedReceipt(c, m, items).Success?
    ensures var r := CombinedReceipt(c, m, items).value;
            GoodReceipt(c, m, r) && ReceiptVerdict(c, m, r) == Success(r.receiptId)
  {
    var s := items[0].statement;
    CheckedStatementIsText(c, m, s);
    var votes := AcceptanceVotes(items, s);
    GatheredIsQuorum(c, m, AcceptanceMessage(c, s), votes);
    var entries := SortedEntries(Gather(c, m, AcceptanceMessage(c, s), votes).value);
    StatementErrorMeaning(c, m, s);
    QuorumReceiptIsText(c, m, s, entries);
    SealedIsGood(c, m, s, entries);
  }

  lemma SealedIsGood(c: Crypto, m: Manifest, s: Statement, entries: seq<SigEntry>)
    requires Sound(c, m) && StatementFits(c, m, s) && ValidStatement(s)
    requires IsQuorum(c, m, AcceptanceMessage(c, s), entries)
    requires Valid(UnsignedReceiptJson(Receipt("", RECEIPT_SCHEMA, entries, s)))
    ensures var r := SealReceipt(c, s, entries); GoodReceipt(c, m, r) && ReceiptVerdict(c, m, r) == Success(r.receiptId)
  {
    var r := SealReceipt(c, s, entries);
    assert UnsignedReceiptJson(r) == UnsignedReceiptJson(Receipt("", RECEIPT_SCHEMA, entries, s));
    ReceiptVerdictMeaning(c, m, r);
  }

  /** The acceptances are of the statement of the receipt, and their signatures are those in it. */
  ghost predicate MadeOf(r: Receipt, items: seq<Acceptance>)
  {
    && items != []
    && (forall i | 0 <= i < |items| :: items[i].schema == WITNESS_ACCEPTANCE_SCHEMA && items[i].statement == r.statement)
    && (forall e :: e in r.signatures <==> Offered(items, e))
  }

  ghost predicate Offered(items: seq<Acceptance>, e: SigEntry)
  {
    exists i :: 0 <= i < |items| && items[i].signature == e
  }

  lemma OfferedVotes(items: seq<Acceptance>, s: Statement)
    ensures forall e :: e in EntriesOf(AcceptanceVotes(items, s)) <==> Offered(items, e)
    ensures (forall v | v in AcceptanceVotes(items, s) :: v.refusal == None) <==>
            forall i | 0 <= i < |items| :: items[i].schema == WITNESS_ACCEPTANCE_SCHEMA && items[i].statement == s
  {
    var votes := AcceptanceVotes(items, s);
    forall e ensures e in EntriesOf(votes) <==> Offered(items, e) {
      if Offered(items, e) {
        var i :| 0 <= i < |items| && items[i].signature == e;
        assert EntriesOf(votes)[i] == e;
      }
    }
    if forall v | v in votes :: v.refusal == None {
      forall i | 0 <= i < |items| ensures items[i].schema == WITNESS_ACCEPTANCE_SCHEMA && items[i].statement == s {
        assert votes[i] in votes;
      }
    }
  }

  /** Acceptances combine to a receipt exactly when it is a good receipt made of just them. */
  lemma CombinedReceiptMeaning(c: Crypto, m: Manifest, items: seq<Acceptance>, r: Receipt)
    requires Sound(c, m)
    ensures CombinedReceipt(c, m, items) == Success(r) <==> GoodReceipt(c, m, r) && MadeOf(r, items)
  {
    if CombinedReceipt(c, m, items) == Success(r) {
      CombinedReceiptVerifies(c, m, items);
      CombinedIsMadeOf(c, m, items, r);
    }
    if GoodReceipt(c, m, r) && MadeOf(r, items) {
      MadeOfCombines(c, m, items, r);
    }
  }

  lemma CombinedIsMadeOf(c: Crypto, m: Manifest, items: seq<Acceptance>, r: Receipt)
    requires Sound(c, m) && CombinedReceipt(c, m, items) == Success(r)
    ensures MadeOf(r, items)
  {
    var s := items[0].statement;
    CheckedStatementIsText(c, m, s);
    var votes := AcceptanceVotes(items, s);
    GatherMeaning(c, m, AcceptanceMessage(c, s), votes);
    OfferedVotes(items, s);
    KeptAreOffered(votes, Gather(c, m, AcceptanceMessage(c, s), votes).value);
  }

  lemma MadeOfCombines(c: Crypto, m: Manifest, items: seq<Acceptance>, r: Receipt)
    requires Sound(c, m) && GoodReceipt(c, m, r) && MadeOf(r, items)
    ensures CombinedReceipt(c, m, items) == Success(r)
  {
    var s := r.statement;
    StatementErrorMeaning(c, m, s);
    OfferedVotes(items, s);
    QuorumIsKept(c, m, AcceptanceMessage(c, s), AcceptanceVotes(items, s), r.signatures);
    SealedAgain(c, r);
  }

  lemma SealedAgain(c: Crypto, r: Receipt)
    requires r.schema == RECEIPT_SCHEMA && Valid(UnsignedReceiptJson(r)) && r.receiptId == ReceiptId(c, r)
    ensures Valid(UnsignedReceiptJson(Receipt("", RECEIPT_SCHEMA, r.signatures, r.statement)))
    ensures SealReceipt(c, r.statement, r.signatures) == r
  {
    assert UnsignedReceiptJson(Receipt("", RECEIPT_SCHEMA, r.signatures, r.statement)) == UnsignedReceiptJson(r);
  }

  /** The receipt depends on the set of acceptances only. */
  lemma CombinedReceiptIgnoresOrder(c: Crypto, m: Manifest, items: seq<Acceptance>, items': seq<Acceptance>)
    requires Sound(c, m) && CombinedReceipt(c, m, items).Success?
    requires forall a :: a in items <==> a in items'
    ensures CombinedReceipt(c, m, items') == CombinedReceipt(c, m, items)
  {
    var s := items[0].statement;
    CheckedStatementIsText(c, m, s);
    var message := AcceptanceMessage(c, s);
    var votes := AcceptanceVotes(items, s);
    GatherMeaning(c, m, message, votes);
    assert items' != [] by {
      assert items[0] in items';
    }
    VotesFollowItems(items, items', s);
    forall a | a in items ensures a.statement == s {
      var i :| 0 <= i < |items| && items[i] == a;
      assert votes[i] in votes && GoodVote(c, m, message, votes[i]);
    }
    assert items'[0] in items;
    GatherIgnoresOrder(c, m, message, votes, AcceptanceVotes(items', s));
  }

  lemma VotesFollowItems(items: seq<Acceptance>, items': seq<Acceptance>, s: Statement)
    requires forall a :: a in items <==> a in items'
    ensures forall v :: v in AcceptanceVotes(items, s) <==> v in AcceptanceVotes(items', s)
  {
    forall v ensures v in AcceptanceVotes(items, s) <==> v in AcceptanceVotes(items', s) {
      if v in AcceptanceVotes(items, s) {
        var i :| 0 <= i < |items| && AcceptanceVotes(items, s)[i] == v;
        assert items[i] in items';
        var j :| 0 <= j < |items'| && items'[j] == items[i];
        assert AcceptanceVotes(items', s)[j] == v;
      }
      if v in AcceptanceVotes(items', s) {
        var i :| 0 <= i < |items'| && AcceptanceVotes(items', s)[i] == v;
        assert items'[i] in items;
        var j :| 0 <= j < |items| && items[j] == items'[i];
        assert AcceptanceVotes(items, s)[j] == v;
      }
    }
  }

  /** The acceptance an honest Witness with this key signs for a statement. */
  function HonestAcceptance(c: Crypto, key: string, s: Statement): Acceptance
    requires ValidString(key) && ValidStatement(s)
  {
    Acceptance(WITNESS_ACCEPTANCE_SCHEMA,
               SigEntry(key, c.sign(key, AcceptanceMessage(c, s)), WitnessId(c, key)),
               s)
  }

  /** Honest acceptances of one statement by three or more different Witnesses always combine. */
  lemma HonestAcceptancesCombine(c: Crypto, m: Manifest, s: Statement, keys: seq<string>, items: seq<Acceptance>)
    requires Sound(c, m) && StatementError(c, m, s) == None && ValidStatement(s)
    requires |keys| >= WITNESS_QUORUM && forall i, j | 0 <= i < j < |keys| :: keys[i] != keys[j]
    requires forall k | k in keys :: k in m.witnesses && ValidString(k)
    requires |items| == |keys|
    requires forall i | 0 <= i < |keys| :: items[i] == HonestAcceptance(c, keys[i], s)
    ensures CombinedReceipt(c, m, items).Success?
    ensures CombinedReceipt(c, m, items).value.statement == s
    ensures |CombinedReceipt(c, m, items).value.signatures| == |keys|
  {
    var message := AcceptanceMessage(c, s);
    var votes := AcceptanceVotes(items, s);
    forall i | 0 <= i < |votes| ensures GoodVote(c, m, message, votes[i]) {
      assert SignatureVerifies(c, keys[i], message);
    }
    forall i, j | 0 <= i < |votes| && 0 <= j < |votes| && votes[i].entry.witnessId == votes[j].entry.witnessId
      ensures i == j
    {
      assert GoodVote(c, m, message, votes[i]) && GoodVote(c, m, message, votes[j]);
      GenuineIdIsKey(c, m, message, votes[i].entry, votes[j].entry);
    }
    assert Consistent(c, m, message, votes);
    GatherMeaning(c, m, message, votes);
    var signatures := Gather(c, m, message, votes).value;
    CollectedCount(votes, signatures);
    assert items[0].statement == s;
  }

  /** As many signatures are collected as there are votes of different Witnesses. */
  lemma CollectedCount(votes: seq<Vote>, signatures: map<string, SigEntry>)
    requires Collected(votes, signatures)
    requires forall i, j | 0 <= i < |votes| && 0 <= j < |votes| && votes[i].entry.witnessId == votes[j].entry.witnessId :: i == j
    ensures |signatures| == |votes|
  {
    var ids := EntryIds(EntriesOf(votes));
    assert forall i | 0 <= i < |ids| :: ids[i] == votes[i].entry.witnessId;
    DistinctCount(ids);
    forall id ensures id in signatures.Keys <==> id in Elements(ids) {
      if id in signatures {
        var v :| v in votes && v.entry.witnessId == id;
        var i :| 0 <= i < |votes| && votes[i] == v;
        assert ids[i] == id;
      }
      if id in Elements(ids) {
        var i :| 0 <= i < |ids| && ids[i] == id;
        assert votes[i] in votes;
      }
    }
    assert signatures.Keys == Elements(ids);
  }
}

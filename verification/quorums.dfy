/** Lists of Witness signatures: checking them, collecting them, and where two of them meet. */
module Quorums {
  import opened Outcomes
  import opened Ordering
  import opened CanonicalJson
  import opened Hashing
  import opened Manifests
  import opened Statements

  // ----------------------------------------------------------- one signature

  /** `verify_signature_entry`: the error it raises, if any. */
  function VerifyEntry(c: Crypto, m: Manifest, message: string, e: SigEntry): Option<Error>
    requires Sound(c, m)
  {
    if !c.isDigest(e.publicKey) || !c.isSignature(e.signature) || !c.isDigest(e.witnessId) then
      Some(NonCanonical)
    else
      WitnessKeysAreText(c, m);
      DigestIsText(c, e.publicKey);
      var witnesses := WitnessMap(c, m.witnesses);
      if e.witnessId !in witnesses || witnesses[e.witnessId] != e.publicKey then Some(ContextMismatch)
      else if WitnessId(c, e.publicKey) != e.witnessId then Some(ContextMismatch)
      else if !c.verify(e.publicKey, e.signature, message) then Some(ContextMismatch)
      else None
  }

  /** A Witness of the manifest, under its own id, with a signature that verifies. */
  ghost predicate Genuine(c: Crypto, m: Manifest, message: string, e: SigEntry)
  {
    && c.isSignature(e.signature)
    && e.publicKey in m.witnesses
    && ValidString(e.publicKey)
    && e.witnessId == WitnessId(c, e.publicKey)
    && c.verify(e.publicKey, e.signature, message)
  }

  lemma VerifyEntryMeaning(c: Crypto, m: Manifest, message: string, e: SigEntry)
    requires Sound(c, m)
    ensures VerifyEntry(c, m, message, e) == None <==> Genuine(c, m, message, e)
    ensures Genuine(c, m, message, e) ==> ValidEntry(e)
  {
    WitnessKeysAreText(c, m);
    WitnessMapLookup(c, m.witnesses, e.witnessId, e.publicKey);
    if Genuine(c, m, message, e) {
      DomainHashIsDigest(c, "vsdp/witness-id/v1", WitnessIdJson(e.publicKey));
      DigestIsText(c, e.signature);
    }
  }

  /** Malformed entries are told apart from well-formed ones that are not genuine. */
  lemma EntryErrors(c: Crypto, m: Manifest, message: string, e: SigEntry)
    requires Sound(c, m) && !Genuine(c, m, message, e)
    ensures VerifyEntry(c, m, message, e) ==
            Some(if c.isDigest(e.publicKey) && c.isSignature(e.signature) && c.isDigest(e.witnessId) then ContextMismatch
                 else NonCanonical)
  {
    VerifyEntryMeaning(c, m, message, e);
  }

  lemma GenuineIdIsKey(c: Crypto, m: Manifest, message: string, e: SigEntry, f: SigEntry)
    requires Sound(c, m) && Genuine(c, m, message, e) && Genuine(c, m, message, f)
    ensures e.witnessId == f.witnessId <==> e.publicKey == f.publicKey
  {
    if e.witnessId == f.witnessId {
      WitnessIdIsInjective(c, e.publicKey, f.publicKey);
    }
  }

  // ------------------------------------------------- a list that is presented

  /** One offered signature: an error raised before the signature check, or none. */
  datatype Vote = Vote(refusal: Option<Error>, entry: SigEntry)

  function EntriesOf(votes: seq<Vote>): (entries: seq<SigEntry>)
    ensures |entries| == |votes|
  {
    seq(|votes|, i requires 0 <= i < |votes| => votes[i].entry)
  }

  function PlainVotes(entries: seq<SigEntry>): (votes: seq<Vote>)
    ensures |votes| == |entries|
    ensures EntriesOf(votes) == entries
  {
    seq(|entries|, i requires 0 <= i < |entries| => Vote(None, entries[i]))
  }

  function EntryIds(entries: seq<SigEntry>): (ids: seq<string>)
    ensures |ids| == |entries|
  {
    seq(|entries|, i requires 0 <= i < |entries| => entries[i].witnessId)
  }

  /** The list equals its own stable sort by Witness id. */
  predicate Ordered(entries: seq<SigEntry>)
  {
    forall i, j | 0 <= i < j < |entries| :: !Less(entries[j].witnessId, entries[i].witnessId)
  }

  function VoteError(c: Crypto, m: Manifest, message: string, v: Vote): Option<Error>
    requires Sound(c, m)
  {
    if v.refusal.Some? then v.refusal else VerifyEntry(c, m, message, v.entry)
  }

  ghost predicate GoodVote(c: Crypto, m: Manifest, message: string, v: Vote)
  {
    v.refusal == None && Genuine(c, m, message, v.entry)
  }

  /** The first error of the loop over a list of signatures, in list order. */
  function ScanVotes(c: Crypto, m: Manifest, message: string, votes: seq<Vote>): Option<Error>
    requires Sound(c, m)
  {
    if votes == [] then None
    else
      var front, last := votes[..|votes| - 1], votes[|votes| - 1];
      match ScanVotes(c, m, message, front)
      case Some(e) => Some(e)
      case None =>
        match VoteError(c, m, message, last)
        case Some(e) => Some(e)
        case None => if last.entry.witnessId in EntryIds(EntriesOf(front)) then Some(NonCanonical) else None
  }

  function VotesError(c: Crypto, m: Manifest, message: string, votes: seq<Vote>): Option<Error>
    requires Sound(c, m)
  {
    if !Ordered(EntriesOf(votes)) then Some(NonCanonical)
    else
      match ScanVotes(c, m, message, votes)
      case Some(e) => Some(e)
      case None =>
        if |Elements(EntryIds(EntriesOf(votes)))| < WITNESS_QUORUM then Some(ReceiptQuorumMissing) else None
  }

  lemma ScanStops(c: Crypto, m: Manifest, message: string, votes: seq<Vote>, n: nat)
    requires Sound(c, m) && n <= |votes| && ScanVotes(c, m, message, votes[..n]).Some?
    ensures ScanVotes(c, m, message, votes) == ScanVotes(c, m, message, votes[..n])
    decreases |votes|
  {
    if n == |votes| {
      assert votes[..n] == votes;
    } else {
      var front := votes[..|votes| - 1];
      assert front[..n] == votes[..n];
      ScanStops(c, m, message, front, n);
    }
  }

  lemma IdsStep(votes: seq<Vote>, n: nat)
    requires n < |votes|
    ensures EntryIds(EntriesOf(votes[..n + 1])) == EntryIds(EntriesOf(votes[..n])) + [votes[n].entry.witnessId]
  {
    var ids := EntryIds(EntriesOf(votes[..n + 1]));
    assert forall i | 0 <= i <= n :: ids[i] == votes[i].entry.witnessId;
  }

  /** One turn of the loop over a list of signatures. */
  lemma ScanStep(c: Crypto, m: Manifest, message: string, votes: seq<Vote>, n: nat)
    requires Sound(c, m) && n < |votes| && ScanVotes(c, m, message, votes[..n]) == None
    ensures EntryIds(EntriesOf(votes[..n + 1])) == EntryIds(EntriesOf(votes[..n])) + [votes[n].entry.witnessId]
    ensures ScanVotes(c, m, message, votes[..n + 1]) ==
            match VoteError(c, m, message, votes[n])
            case Some(e) => Some(e)
            case None =>
              if votes[n].entry.witnessId in EntryIds(EntriesOf(votes[..n])) then Some(NonCanonical) else None
  {
    IdsStep(votes, n);
    assert votes[..n + 1][..n] == votes[..n];
  }

  lemma ElementsStep(ids: seq<string>, id: string)
    ensures Elements(ids + [id]) == Elements(ids) + {id}
    ensures id in Elements(ids) <==> id in ids
  {
  }

  /** The shared loop of `verify_receipt` and `verify_quorum_checkpoint`. */
  method VerifyVotes(c: Crypto, m: Manifest, message: string, votes: seq<Vote>) returns (r: Option<Error>)
    requires Sound(c, m)
    ensures r == VotesError(c, m, message, votes)
  {
    if !Ordered(EntriesOf(votes)) {
      return Some(NonCanonical);
    }
    var seen: set<string> := {};
    for n := 0 to |votes|
      invariant seen == Elements(EntryIds(EntriesOf(votes[..n])))
      invariant ScanVotes(c, m, message, votes[..n]) == None
    {
      var id := votes[n].entry.witnessId;
      ScanStep(c, m, message, votes, n);
      ElementsStep(EntryIds(EntriesOf(votes[..n])), id);
      var problem := VoteError(c, m, message, votes[n]);
      if problem.Some? {
        ScanStops(c, m, message, votes, n + 1);
        return problem;
      }
      if id in seen {
        ScanStops(c, m, message, votes, n + 1);
        return Some(NonCanonical);
      }
      seen := seen + {id};
    }
    assert votes[..|votes|] == votes;
    if |seen| < WITNESS_QUORUM {
      return Some(ReceiptQuorumMissing);
    }
    return None;
  }

  /** Three or more different Witnesses, each with a valid signature, in canonical order. */
  ghost predicate IsQuorum(c: Crypto, m: Manifest, message: string, entries: seq<SigEntry>)
  {
    && Increasing(EntryIds(entries))
    && (forall i | 0 <= i < |entries| :: Genuine(c, m, message, entries[i]))
    && |entries| >= WITNESS_QUORUM
  }

  lemma VoteErrorMeaning(c: Crypto, m: Manifest, message: string, v: Vote)
    requires Sound(c, m)
    ensures VoteError(c, m, message, v) == None <==> GoodVote(c, m, message, v)
  {
    VerifyEntryMeaning(c, m, message, v.entry);
  }

  ghost predicate AllGood(c: Crypto, m: Manifest, message: string, votes: seq<Vote>)
  {
    forall i | 0 <= i < |votes| :: GoodVote(c, m, message, votes[i])
  }

  predicate AllDifferent(votes: seq<Vote>)
  {
    forall i, j | 0 <= i < j < |votes| :: votes[i].entry.witnessId != votes[j].entry.witnessId
  }

  lemma AllGoodStep(c: Crypto, m: Manifest, message: string, front: seq<Vote>, last: Vote)
    ensures AllGood(c, m, message, front + [last]) <==> AllGood(c, m, message, front) && GoodVote(c, m, message, last)
  {
    var votes := front + [last];
    assert votes[|front|] == last && forall i | 0 <= i < |front| :: votes[i] == front[i];
    if AllGood(c, m, message, votes) {
      forall i | 0 <= i < |front| ensures GoodVote(c, m, message, front[i]) {
        assert GoodVote(c, m, message, votes[i]);
      }
    }
  }

  lemma AllDifferentStep(front: seq<Vote>, last: Vote)
    ensures AllDifferent(front + [last]) <==> AllDifferent(front) && last.entry.witnessId !in EntryIds(EntriesOf(front))
  {
    var votes, ids := front + [last], EntryIds(EntriesOf(front));
    assert votes[|front|] == last;
    assert forall i | 0 <= i < |front| :: votes[i] == front[i] && ids[i] == front[i].entry.witnessId;
  }

  lemma ScanLast(c: Crypto, m: Manifest, message: string, front: seq<Vote>, last: Vote)
    requires Sound(c, m)
    ensures ScanVotes(c, m, message, front + [last]) == None <==>
            && ScanVotes(c, m, message, front) == None && VoteError(c, m, message, last) == None
            && last.entry.witnessId !in EntryIds(EntriesOf(front))
  {
    assert (front + [last])[..|front|] == front;
  }

  lemma {:induction false} ScanMeaning(c: Crypto, m: Manifest, message: string, votes: seq<Vote>)
    requires Sound(c, m)
    ensures ScanVotes(c, m, message, votes) == None <==> AllGood(c, m, message, votes) && AllDifferent(votes)
  {
    if votes != [] {
      var front, last := votes[..|votes| - 1], votes[|votes| - 1];
      assert votes == front + [last];
      ScanMeaning(c, m, message, front);
      ScanLast(c, m, message, front, last);
      VoteErrorMeaning(c, m, message, last);
      AllGoodStep(c, m, message, front, last);
      AllDifferentStep(front, last);
    }
  }

  lemma OrderedDistinctIsIncreasing(entries: seq<SigEntry>)
    ensures Increasing(EntryIds(entries))
            <==> Ordered(entries)
                 && forall i, j | 0 <= i < j < |entries| :: entries[i].witnessId != entries[j].witnessId
  {
    var ids := EntryIds(entries);
    assert forall i | 0 <= i < |ids| :: ids[i] == entries[i].witnessId;
    if Increasing(ids) {
      IncreasingIsDistinct(ids);
      forall i, j | 0 <= i < j < |entries| ensures !Less(entries[j].witnessId, entries[i].witnessId) {
        Asymmetric(ids[i], ids[j]);
      }
    } else {
      var i, j :| 0 <= i < j < |ids| && !Less(ids[i], ids[j]);
      Total(ids[i], ids[j]);
    }
  }

  /** The checks accept a list exactly when it is a quorum of unrefused signatures. */
  lemma VotesErrorMeaning(c: Crypto, m: Manifest, message: string, votes: seq<Vote>)
    requires Sound(c, m)
    ensures VotesError(c, m, message, votes) == None
            <==> (forall i | 0 <= i < |votes| :: votes[i].refusal == None)
                 && IsQuorum(c, m, message, EntriesOf(votes))
  {
    var entries := EntriesOf(votes);
    assert forall i | 0 <= i < |votes| :: entries[i] == votes[i].entry;
    ScanMeaning(c, m, message, votes);
    OrderedDistinctIsIncreasing(entries);
    var ids := EntryIds(entries);
    if Increasing(ids) {
      IncreasingIsDistinct(ids);
      DistinctCount(ids);
    }
  }

  // ------------------------------------------- collecting signatures by Witness

  /** The `signatures` dictionary of the combine loops after the given votes. */
  function Gather(c: Crypto, m: Manifest, message: string, votes: seq<Vote>): Result<map<string, SigEntry>>
    requires Sound(c, m)
  {
    if votes == [] then Success(map[])
    else
      var front, last := votes[..|votes| - 1], votes[|votes| - 1];
      match Gather(c, m, message, front)
      case Failure(e) => Failure(e)
      case Success(signatures) =>
        match VoteError(c, m, message, last)
        case Some(e) => Failure(e)
        case None =>
          var id := last.entry.witnessId;
          if id in signatures && signatures[id] != last.entry then Failure(BoardFork)
          else Success(signatures[id := last.entry])
  }

  /** One more turn of the combine loops. */
  lemma GatherStep(c: Crypto, m: Manifest, message: string, votes: seq<Vote>, n: nat, signatures: map<string, SigEntry>)
    requires Sound(c, m) && n < |votes| && Gather(c, m, message, votes[..n]) == Success(signatures)
    ensures Gather(c, m, message, votes[..n + 1]) ==
            match VoteError(c, m, message, votes[n])
            case Some(e) => Failure(e)
            case None =>
              var id := votes[n].entry.witnessId;
              if id in signatures && signatures[id] != votes[n].entry then Failure(BoardFork)
              else Success(signatures[id := votes[n].entry])
  {
    assert votes[..n + 1][..n] == votes[..n];
  }

  lemma GatherStops(c: Crypto, m: Manifest, message: string, votes: seq<Vote>, n: nat)
    requires Sound(c, m) && n <= |votes| && Gather(c, m, message, votes[..n]).Failure?
    ensures Gather(c, m, message, votes) == Gather(c, m, message, votes[..n])
    decreases |votes|
  {
    if n == |votes| {
      assert votes[..n] == votes;
    } else {
      var front := votes[..|votes| - 1];
      assert front[..n] == votes[..n];
      GatherStops(c, m, message, front, n);
    }
  }

  /** Every vote is good and no Witness offers two different signatures. */
  ghost predicate Consistent(c: Crypto, m: Manifest, message: string, votes: seq<Vote>)
  {
    && (forall v | v in votes :: GoodVote(c, m, message, v))
    && (forall v, w | v in votes && w in votes && v.entry.witnessId == w.entry.witnessId :: v.entry == w.entry)
  }

  /** The dictionary holds exactly the offered signatures. */
  ghost predicate Collected(votes: seq<Vote>, signatures: map<string, SigEntry>)
  {
    && (forall v | v in votes :: v.entry.witnessId in signatures && signatures[v.entry.witnessId] == v.entry)
    && (forall id | id in signatures :: exists v :: v in votes && v.entry.witnessId == id)
  }

  lemma ConsistentStep(c: Crypto, m: Manifest, message: string, front: seq<Vote>, last: Vote)
    ensures Consistent(c, m, message, front + [last])
            <==> Consistent(c, m, message, front) && GoodVote(c, m, message, last)
                 && forall v | v in front && v.entry.witnessId == last.entry.witnessId :: v.entry == last.entry
  {
    var votes := front + [last];
    assert forall v :: v in votes <==> v in front || v == last;
  }

  lemma CollectedStep(front: seq<Vote>, last: Vote, signatures: map<string, SigEntry>)
    requires Collected(front, signatures)
    ensures (exists v :: v in front && v.entry.witnessId == last.entry.witnessId)
            <==> last.entry.witnessId in signatures
    ensures (forall v | v in front && v.entry.witnessId == last.entry.witnessId :: v.entry == last.entry)
            ==> Collected(front + [last], signatures[last.entry.witnessId := last.entry])
  {
    var votes := front + [last];
    assert forall v :: v in votes <==> v in front || v == last;
    var next := signatures[last.entry.witnessId := last.entry];
    forall id | id in next ensures exists v :: v in votes && v.entry.witnessId == id {
      if id != last.entry.witnessId {
        var v :| v in front && v.entry.witnessId == id;
        assert v in votes;
      } else {
        assert last in votes;
      }
    }
  }

  lemma {:induction false} GatherMeaning(c: Crypto, m: Manifest, message: string, votes: seq<Vote>)
    requires Sound(c, m)
    ensures Gather(c, m, message, votes).Success? <==> Consistent(c, m, message, votes)
    ensures Gather(c, m, message, votes).Success? ==> Collected(votes, Gather(c, m, message, votes).value)
  {
    if votes != [] {
      var n := |votes| - 1;
      var front, last := votes[..n], votes[n];
      assert votes == front + [last];
      GatherMeaning(c, m, message, front);
      VoteErrorMeaning(c, m, message, last);
      ConsistentStep(c, m, message, front, last);
      if Gather(c, m, message, front).Success? {
        CollectedStep(front, last, Gather(c, m, message, front).value);
      }
    }
  }

  /** The collected dictionary is a function of the set of votes: order and repeats do not matter. */
  lemma GatherIgnoresOrder(c: Crypto, m: Manifest, message: string, votes: seq<Vote>, votes': seq<Vote>)
    requires Sound(c, m)
    requires forall v :: v in votes <==> v in votes'
    ensures Gather(c, m, message, votes).Success? <==> Gather(c, m, message, votes').Success?
    ensures Gather(c, m, message, votes).Success?
            ==> Gather(c, m, message, votes').Success?
                && Gather(c, m, message, votes).value == Gather(c, m, message, votes').value
  {
    GatherMeaning(c, m, message, votes);
    GatherMeaning(c, m, message, votes');
    assert Consistent(c, m, message, votes) <==> Consistent(c, m, message, votes');
    if Gather(c, m, message, votes).Success? {
      CollectedIsUnique(votes, votes', Gather(c, m, message, votes).value, Gather(c, m, message, votes').value);
    }
  }

  lemma CollectedIsUnique(votes: seq<Vote>, votes': seq<Vote>, a: map<string, SigEntry>, b: map<string, SigEntry>)
    requires Collected(votes, a) && Collected(votes', b)
    requires forall v :: v in votes <==> v in votes'
    ensures a == b
  {
    forall id ensures id in a <==> id in b {
      if id in a {
        var v :| v in votes && v.entry.witnessId == id;
        assert v in votes';
      }
      if id in b {
        var v :| v in votes' && v.entry.witnessId == id;
        assert v in votes;
      }
    }
    forall id | id in a ensures a[id] == b[id] {
      var v :| v in votes && v.entry.witnessId == id;
      assert v in votes';
    }
  }

  /** The entries of the dictionary in the order of their ids. */
  function SortedEntries(signatures: map<string, SigEntry>): (entries: seq<SigEntry>)
    ensures |entries| == |signatures|
  {
    var ids := Sorted(signatures.Keys);
    assert forall i | 0 <= i < |ids| :: ids[i] in Elements(ids);
    seq(|ids|, i requires 0 <= i < |ids| => signatures[ids[i]])
  }

  /** What the combine loops put into a receipt or checkpoint is a quorum. */
  lemma GatheredIsQuorum(c: Crypto, m: Manifest, message: string, votes: seq<Vote>)
    requires Sound(c, m) && Gather(c, m, message, votes).Success?
    requires |Gather(c, m, message, votes).value| >= WITNESS_QUORUM
    ensures IsQuorum(c, m, message, SortedEntries(Gather(c, m, message, votes).value))
  {
    var signatures := Gather(c, m, message, votes).value;
    var ids := Sorted(signatures.Keys);
    var entries := SortedEntries(signatures);
    forall i | 0 <= i < |entries|
      ensures Genuine(c, m, message, entries[i]) && entries[i].witnessId == ids[i]
    {
      GatheredIsGenuine(c, m, message, votes, i);
    }
    assert EntryIds(entries) == ids;
  }

  lemma GatheredIsGenuine(c: Crypto, m: Manifest, message: string, votes: seq<Vote>, i: nat)
    requires Sound(c, m) && Gather(c, m, message, votes).Success?
    requires i < |SortedEntries(Gather(c, m, message, votes).value)|
    ensures var signatures := Gather(c, m, message, votes).value;
            && Genuine(c, m, message, SortedEntries(signatures)[i])
            && SortedEntries(signatures)[i].witnessId == Sorted(signatures.Keys)[i]
  {
    GatherMeaning(c, m, message, votes);
    var ids := Sorted(Gather(c, m, message, votes).value.Keys);
    assert ids[i] in Elements(ids);
    var v :| v in votes && v.entry.witnessId == ids[i];
    assert GoodVote(c, m, message, v);
  }

  /** The kept entries are exactly the offered ones. */
  lemma KeptAreOffered(votes: seq<Vote>, signatures: map<string, SigEntry>)
    requires Collected(votes, signatures)
    ensures forall e :: e in SortedEntries(signatures) <==> e in EntriesOf(votes)
  {
    var ids, entries := Sorted(signatures.Keys), SortedEntries(signatures);
    assert forall i | 0 <= i < |ids| :: ids[i] in Elements(ids) && entries[i] == signatures[ids[i]];
    forall e ensures e in entries <==> e in EntriesOf(votes) {
      if e in entries {
        var i :| 0 <= i < |entries| && entries[i] == e;
        var v :| v in votes && v.entry.witnessId == ids[i];
        var j :| 0 <= j < |votes| && votes[j] == v;
        assert EntriesOf(votes)[j] == e;
      }
      if e in EntriesOf(votes) {
        var j :| 0 <= j < |votes| && EntriesOf(votes)[j] == e;
        assert votes[j] in votes && e.witnessId in Elements(ids);
        var i :| 0 <= i < |ids| && ids[i] == e.witnessId;
        assert entries[i] == e;
      }
    }
  }

  /** Offers that make up a quorum are kept as that quorum. */
  lemma QuorumIsKept(c: Crypto, m: Manifest, message: string, votes: seq<Vote>, entries: seq<SigEntry>)
    requires Sound(c, m) && IsQuorum(c, m, message, entries)
    requires (forall v | v in votes :: v.refusal == None) && forall e :: e in entries <==> e in EntriesOf(votes)
    ensures Gather(c, m, message, votes).Success? && SortedEntries(Gather(c, m, message, votes).value) == entries
  {
    OffersAreConsistent(c, m, message, votes, entries);
    GatherMeaning(c, m, message, votes);
    var kept := SortedEntries(Gather(c, m, message, votes).value);
    KeptAreOffered(votes, Gather(c, m, message, votes).value);
    KeptInOrder(Gather(c, m, message, votes).value, votes);
    SameEntries(kept, entries);
  }

  lemma OffersAreConsistent(c: Crypto, m: Manifest, message: string, votes: seq<Vote>, entries: seq<SigEntry>)
    requires IsQuorum(c, m, message, entries)
    requires (forall v | v in votes :: v.refusal == None) && forall e :: e in entries <==> e in EntriesOf(votes)
    ensures Consistent(c, m, message, votes)
  {
    forall v | v in votes ensures v.entry in entries {
      var j :| 0 <= j < |votes| && votes[j] == v;
      assert EntriesOf(votes)[j] == v.entry;
    }
    IncreasingIsDistinct(EntryIds(entries));
    forall v, w | v in votes && w in votes && v.entry.witnessId == w.entry.witnessId ensures v.entry == w.entry {
      var i :| 0 <= i < |entries| && entries[i] == v.entry;
      var j :| 0 <= j < |entries| && entries[j] == w.entry;
      assert EntryIds(entries)[i] == EntryIds(entries)[j];
    }
  }

  lemma KeptInOrder(signatures: map<string, SigEntry>, votes: seq<Vote>)
    requires Collected(votes, signatures)
    ensures Increasing(EntryIds(SortedEntries(signatures)))
  {
    var ids := Sorted(signatures.Keys);
    forall i | 0 <= i < |ids| ensures EntryIds(SortedEntries(signatures))[i] == ids[i] {
      assert ids[i] in Elements(ids);
      var v :| v in votes && v.entry.witnessId == ids[i];
    }
    assert EntryIds(SortedEntries(signatures)) == ids;
  }

  /** Entries in increasing id order are determined by which they are. */
  lemma SameEntries(a: seq<SigEntry>, b: seq<SigEntry>)
    requires Increasing(EntryIds(a)) && Increasing(EntryIds(b)) && forall e :: e in a <==> e in b
    ensures a == b
  {
    var ids, ids' := EntryIds(a), EntryIds(b);
    SameIds(a, b);
    SameIds(b, a);
    SortedIsUnique(Elements(ids));
    assert ids == ids';
    IncreasingIsDistinct(ids);
    forall i | 0 <= i < |a| ensures a[i] == b[i] {
      assert a[i] in b;
      var j :| 0 <= j < |b| && b[j] == a[i];
      assert ids'[j] == ids[i];
    }
  }

  lemma SameIds(a: seq<SigEntry>, b: seq<SigEntry>)
    requires forall e | e in a :: e in b
    ensures Elements(EntryIds(a)) <= Elements(EntryIds(b))
  {
    forall id | id in Elements(EntryIds(a)) ensures id in Elements(EntryIds(b)) {
      var i :| 0 <= i < |a| && EntryIds(a)[i] == id;
      assert a[i] in b;
      var j :| 0 <= j < |b| && b[j] == a[i];
      assert EntryIds(b)[j] == id;
    }
  }

  // ------------------------------------------------------ where quorums meet

  function Signers(entries: seq<SigEntry>): set<string>
  {
    set e | e in entries :: e.publicKey
  }

  lemma {:induction false} SignersCount(entries: seq<SigEntry>)
    requires forall i, j | 0 <= i < j < |entries| :: entries[i].publicKey != entries[j].publicKey
    ensures |Signers(entries)| == |entries|
  {
    if entries != [] {
      var n := |entries| - 1;
      var front := entries[..n];
      SignersCount(front);
      SignersStep(front, entries[n]);
      assert entries == front + [entries[n]];
    }
  }

  lemma SignersStep(front: seq<SigEntry>, last: SigEntry)
    ensures Signers(front + [last]) == Signers(front) + {last.publicKey}
    ensures (forall i | 0 <= i < |front| :: front[i].publicKey != last.publicKey) ==> last.publicKey !in Signers(front)
  {
    var entries := front + [last];
    assert forall e :: e in entries <==> e in front || e == last;
  }

  lemma QuorumSigners(c: Crypto, m: Manifest, message: string, entries: seq<SigEntry>)
    requires Sound(c, m) && IsQuorum(c, m, message, entries)
    ensures |Signers(entries)| >= WITNESS_QUORUM
    ensures Signers(entries) <= Elements(m.witnesses)
    ensures forall k | k in Signers(entries) :: exists e :: e in entries && e.publicKey == k && Genuine(c, m, message, e)
  {
    IncreasingIsDistinct(EntryIds(entries));
    forall i, j | 0 <= i < j < |entries| ensures entries[i].publicKey != entries[j].publicKey {
      assert EntryIds(entries)[i] != EntryIds(entries)[j];
      GenuineIdIsKey(c, m, message, entries[i], entries[j]);
    }
    SignersCount(entries);
    forall k | k in Signers(entries)
      ensures k in Elements(m.witnesses)
      ensures exists e :: e in entries && e.publicKey == k && Genuine(c, m, message, e)
    {
      var e :| e in entries && e.publicKey == k;
      var i :| 0 <= i < |entries| && entries[i] == e;
      assert Genuine(c, m, message, entries[i]);
    }
  }

  /** At most one Witness of the manifest is faulty. */
  ghost predicate MostlyHonest(m: Manifest, honest: set<string>)
  {
    && honest <= Elements(m.witnesses)
    && |Elements(m.witnesses) - honest| <= 1
  }

  /** Two sets of three among four Witnesses share at least two, hence an honest one. */
  lemma QuorumsShareHonest(m: Manifest, honest: set<string>, a: set<string>, b: set<string>)
    requires |Elements(m.witnesses)| == WITNESS_COUNT && MostlyHonest(m, honest)
    requires a <= Elements(m.witnesses) && b <= Elements(m.witnesses)
    requires |a| >= WITNESS_QUORUM && |b| >= WITNESS_QUORUM
    ensures exists k :: k in a && k in b && k in honest
  {
    var all := Elements(m.witnesses);
    assert |a + b| + |a * b| == |a| + |b|;
    SubsetSize(a + b, all);
    assert |a * b| >= 2;
    if a * b * honest == {} {
      assert a * b <= all - honest;
      SubsetSize(a * b, all - honest);
      assert false;
    }
    var k :| k in a * b * honest;
    assert k in a && k in b && k in honest;
  }

  /** A quorum leaves out at most one Witness, so it contains one of any two. */
  lemma QuorumMeetsPair(m: Manifest, a: set<string>, p: string, q: string)
    requires |Elements(m.witnesses)| == WITNESS_COUNT
    requires a <= Elements(m.witnesses) && |a| >= WITNESS_QUORUM
    requires p in m.witnesses && q in m.witnesses && p != q
    ensures p in a || q in a
  {
    var all := Elements(m.witnesses);
    assert p !in a && q !in a ==> |a + {p, q}| == |a| + 2;
    if p !in a && q !in a {
      SubsetSize(a + {p, q}, all);
    }
  }

  lemma SubsetSize(a: set<string>, b: set<string>)
    requires a <= b
    ensures |a| <= |b|
  {
    assert a + (b - a) == b;
  }

  lemma WitnessSetSize(c: Crypto, m: Manifest)
    requires ValidManifest(c, m)
    ensures |Elements(m.witnesses)| == WITNESS_COUNT
  {
    IncreasingIsDistinct(m.witnesses);
    DistinctCount(m.witnesses);
  }
}

/** Results and error codes shared by every ceremony module. */
module Outcomes {

  /** The stable error codes the ceremony package raises (errors.py). */
  datatype Error =
    | NonCanonical
    | ContextMismatch
    | CandidateDigestMismatch
    | BallotProofInvalid
    | NullifierConflict
    | ReceiptQuorumMissing
    | BoardFork
    | ReceiptedRecordMissing
    | AnonymitySetTooSmall
    | DecryptionUnauthorized
    | DecryptionReplay
    | TallyMismatch
    | InvalidTransition
    | ArtifactHashMismatch
    | RoleChannelViolation
    | ContributionConflict
    | QuorumTimeout
    | CeremonyAborted
    | BusDisconnected
    | RoleAssignmentInvalid
    | VotingNotOpen
    | VotingClosed

  datatype Option<+T> = None | Some(value: T)

  /** A value, or the code of the error that was raised instead. */
  datatype Result<+T> = Success(value: T) | Failure(error: Error)

  /** All values of a list of outcomes, or the first error in it. */
  function Collect<T>(rs: seq<Result<T>>): (r: Result<seq<T>>)
    ensures r.Success? ==> |r.value| == |rs|
  {
    if rs == [] then Success([])
    else
      match Collect(rs[..|rs| - 1])
      case Failure(e) => Failure(e)
      case Success(values) =>
        match rs[|rs| - 1]
        case Failure(e) => Failure(e)
        case Success(value) => Success(values + [value])
  }

  lemma {:induction false} CollectMeaning<T>(rs: seq<Result<T>>)
    ensures Collect(rs).Success? <==> forall i | 0 <= i < |rs| :: rs[i].Success?
    ensures Collect(rs).Success? ==> forall i | 0 <= i < |rs| :: rs[i] == Success(Collect(rs).value[i])
  {
    if rs != [] {
      var front := rs[..|rs| - 1];
      CollectMeaning(front);
      assert forall i | 0 <= i < |front| :: front[i] == rs[i];
    }
  }

  lemma CollectNext<T>(rs: seq<Result<T>>, n: nat)
    requires n < |rs| && Collect(rs[..n]).Success?
    ensures Collect(rs[..n + 1]) ==
            match rs[n] case Failure(e) => Failure(e) case Success(v) => Success(Collect(rs[..n]).value + [v])
  {
    assert rs[..n + 1][..n] == rs[..n];
  }

  /** The first error decides. */
  lemma {:induction false} CollectStops<T>(rs: seq<Result<T>>, n: nat)
    requires n <= |rs| && Collect(rs[..n]).Failure?
    ensures Collect(rs) == Collect(rs[..n])
    decreases |rs|
  {
    if n == |rs| {
      assert rs[..n] == rs;
    } else {
      var front := rs[..|rs| - 1];
      assert front[..n] == rs[..n];
      CollectStops(front, n);
    }
  }
}

/** Every text that the package hashes keeps clear of the Merkle tags. */
module HashTags {
  import opened CanonicalJson
  import opened Hashing
  import opened HashBytes
  import Manifests
  import Statements
  import Checkpoints
  import Ballots
  import PublicArtifacts
  import ArtifactStores
  import Authorizations
  import BusSteps

  /** The domain tags of the modelled parts. */
  datatype Tag =
    | Acceptance | CheckpointBody | QuorumReceipt | Cutoff | WitnessId
    | BallotBinding | BoardRecord | PublicArtifact | BundleIndex | Authorization | ContributionPayload

  function TagText(t: Tag): string
  {
    match t
    case Acceptance => Statements.ACCEPT_TAG
    case CheckpointBody => Statements.CHECKPOINT_TAG
    case QuorumReceipt => Statements.RECEIPT_TAG
    case Cutoff => Checkpoints.CUTOFF_TAG
    case WitnessId => Manifests.WITNESS_ID_TAG
    case BallotBinding => Ballots.BINDING_TAG
    case BoardRecord => Ballots.RECORD_TAG
    case PublicArtifact => PublicArtifacts.ARTIFACT_TAG
    case BundleIndex => ArtifactStores.INDEX_TAG
    case Authorization => Authorizations.AUTHORIZATION_TAG
    case ContributionPayload => BusSteps.PAYLOAD_TAG
  }

  lemma StatementTags()
    ensures TextTag(Statements.ACCEPT_TAG)
    ensures TextTag(Statements.CHECKPOINT_TAG)
  {
  }

  lemma QuorumTags()
    ensures TextTag(Statements.RECEIPT_TAG)
    ensures TextTag(Checkpoints.CUTOFF_TAG)
  {
  }

  lemma BallotTags()
    ensures TextTag(Ballots.BINDING_TAG)
    ensures TextTag(Ballots.RECORD_TAG)
  {
    assert Ballots.RECORD_TAG[11] == 'r';
  }

  lemma WitnessTag()
    ensures TextTag(Manifests.WITNESS_ID_TAG)
  {
  }

  lemma ArtifactTags()
    ensures TextTag(PublicArtifacts.ARTIFACT_TAG)
    ensures TextTag(ArtifactStores.INDEX_TAG)
  {
  }

  lemma GuardianTag()
    ensures TextTag(Authorizations.AUTHORIZATION_TAG)
  {
  }

  lemma BusTag()
    ensures TextTag(BusSteps.PAYLOAD_TAG)
  {
  }

  lemma TagsAreClear(t: Tag)
    ensures TextTag(TagText(t))
  {
    StatementTags();
    QuorumTags();
    BallotTags();
    WitnessTag();
    ArtifactTags();
    GuardianTag();
    BusTag();
  }

  /** Under each of its tags, and without one, what the package hashes meets the condition of separation. */
  lemma PackageTextsAreHashable(t: Tag, v: Json)
    requires Valid(v)
    ensures Hashable(Text(DomainText(TagText(t), v)))
    ensures Hashable(Text(Dumps(v))) && Hashable(Text(EMPTY_BOARD))
  {
    TagsAreClear(t);
    DomainTextIsHashable(TagText(t), v);
    CanonicalTextIsHashable(v);
    EmptyBoardIsHashable();
  }
}

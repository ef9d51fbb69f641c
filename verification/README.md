# The VSDP ceremony package and the trust score, verified in Dafny

The ceremony package of aigenora runs a secret decision: four Witnesses keep durable stores of ballot
records, three matching signatures make a receipt, three matching checkpoint signatures over a Merkle root
seal the board, and anyone can check the published bundle. This project models that package, together with
the search behind the web-of-trust score, and proves what it is for.

**The bulletin board** (`witness_*.dfy`, `receipts.dfy`, `checkpoints.dfy`, `bundles.dfy`, `board_*.dfy`).
`WitnessStore` is a class with the five tables of the database; each transaction is one step on a value
`Tables`, and the class is proved to perform exactly these steps. `witness_answers.dfy` says what each
answer means for the request and the stored rows. A run is any sequence of calls on the honest
stores, with any arguments; calls that raise are steps too, and `store_receipt` may commit a record and then
raise. That call has up to three transactions of its own; `board_interleaving.dfy` lets calls on other threads
run in between and shows that this reaches no tables beyond those of runs of whole calls. A faulty Witness
has no state: it may sign anything. The main results of `BoardRuns` hold in every reachable state with at most
one faulty Witness out of four: no checkpoint fork, agreement of all verifiers, one record for each nullifier,
nothing counted without a quorum, nothing receipted in time left out. They are about receipts, checkpoints and
bundles presented at any times of a run. `board_requests.dfy` and `board_liveness.dfy` show that runs get there:
any list of admitted ballots with different nullifiers can be carried to an accepted bundle that reports exactly
these; `board_resealing.dfy` shows what happens to receipts that come too late.

**Hashes and signatures** (`hashing.dfy`) are ideal: SHA-256 is injective on what the package hashes, a
signature made by a key verifies under it, and a signature that verifies under an honest key and is presented
to a verifier was released by that key's store. Which messages a store has released is read off its tables.
What is hashed is the canonical JSON text with its domain tag, so the injectivity of every message goes
through the printer and parser of `canonical_json.dfy`, which are proved inverse to each other; which texts are
canonical is said without them, by the strict reader of `canonical_reader.dfy`. The objects that are hashed or
signed are spelled out field by field in `wire_formats.dfy`. The assumptions
on the primitives can be met: `assumptions.dfy` exhibits functions and a manifest that do. What makes the hash
injective on bytes is proved in `hash_bytes.dfy` and `hash_tags.dfy`: the things that are hashed have different
bytes, with UTF-8, hexadecimal digests and the domain tags written out.

**The bus** (`bus_steps.dfy`, `bus_safety.dfy`, `bus_runs.dfy`, `ceremony_bus.dfy`). Every call is cut where it
may be suspended: the checks and the delivery counter are one step, the part after the delay another. Calls in
flight are part of the state, so a run is any interleaving of such steps.

**Smaller components** are the artifact store with its index and the search for private fields
(`artifacts.dfy`, `artifact_store.dfy`, `artifact_values.dfy`, `bundle_indexes.dfy`), unpadded base64url (`base64url.dfy`), the ceremony state machine
(`ceremony_states.dfy`), the Guardian ledgers and the aggregate authorization (`guardian_ledgers.dfy`,
`authorizations.dfy`), and plurality (`decision_proofs.dfy`).

**The trust score** (`trust_scores.dfy`, `trust_reports.dfy`) is the imperative breadth-first search over
inbound edges, proved against shortest chains of trust edges, and the rounded report made from it.

Where the code falls short of what one would expect, the model follows the code and states exactly when:

- `make_public_artifact` compares the two ids by truth value but writes every id that is not `None`. With an
  empty string for one id it returns an artifact that `verify_public_artifact` rejects; `MakeThenVerify` is the
  exact condition and `EmptyIdIsNotVerified` the input.
- A Witness that stores a receipt for a further record after it has sealed answers no repeated `checkpoint` call
  any more: it raises `BOARD_FORK` although it never signed a second body. `AnswersAgainIff` is the exact
  condition in every run, and `ForkWithoutFork` a run in which it happens.
- The search for private fields descends into dicts and lists only, while a tuple is a sequence to the canonical
  encoder and is written as an array. With a forbidden key inside a tuple an artifact is appended and cannot be
  loaded; `AppendValueThenLoad` is the exact condition and `TupleIsNotSearched` the input.
- `verify_aggregate_authorization` accepts bodies that `build_aggregate_authorization` never makes: it does not
  compare the two roots, nor ask for digests there, non-empty option ids or a board that is ready. `BuiltIff` is
  the exact difference and `AcceptedNotBuilt` a body of this kind beside every accepted one.

Three modules hold shared vocabulary: `outcomes.dfy` (results and error codes), `ordering.dfy` (Python's string
order and `sorted` on sets), `json_objects.dfy` (objects with fixed keys).

## Model

| member | source | states |
|---|---|---|
| `BoardRuns.NoFork` | `src/aigenora/ceremony/board.py:686-773` | in every run of honest Witnesses with at most one faulty one, every two accepted quorum checkpoints, presented at any two times, have the same body and the same hash |
| `BoardRuns.Agreement` | `src/aigenora/ceremony/board.py:961-1015` | in every such run every two bundles that are accepted, at any two times, give the same result: accepted ids, count, checkpoint hash, readiness |
| `BoardRuns.OneRecordPerNullifier` | `src/aigenora/ceremony/board.py:415-452` | in every such run two accepted receipts with one nullifier, presented at any two times, carry one and the same statement |
| `BoardRuns.NoStuffing` | `src/aigenora/ceremony/board.py:712-735` | what an accepted quorum checkpoint covers is a set of records of an honest store, each backed by a receipt that verifies; the sealed count is the number of those records and of their different nullifiers |
| `BoardRuns.NoSuppression` | `src/aigenora/ceremony/board.py:857-897` | a record for which two honest Witnesses stored a receipt before they sealed is in every id set whose root an accepted quorum checkpoint can carry, whenever it is presented |
| `BoardRuns.ReceiptedIsReported` | `src/aigenora/ceremony/board.py:995-1015` | such a record is among the accepted ids that every accepting bundle verification reports |
| `BoardRuns.RunKeepsInvariant` | `src/aigenora/ceremony/board.py:568-773` | the store invariant holds for every honest Witness in every reachable state, calls that raise included |
| `BoardRuns.RunOnlyGrows` | `src/aigenora/ceremony/board.py:568-773` | over every run nothing a store wrote in any table is removed or changed |
| `BoardRuns.PresentedCheckpointPersists` | `src/aigenora/ceremony/board.py:900-935` | a checkpoint that is accepted and free of forgery at one time of a run is so at every later time |
| `BoardRuns.PresentedReceiptPersists` | `src/aigenora/ceremony/board.py:415-452` | so is a receipt |
| `BoardRuns.SealedOnce` | `src/aigenora/ceremony/board.py:741-771` | a signed checkpoint stays as it is for the rest of the run, and no checkpoint is ever signed for another decision, epoch or height |
| `BoardRuns.IssuedMeansAccepted` | `src/aigenora/ceremony/board.py:596-630` | an honest store that released a signature on an acceptance message holds exactly that statement under its record id |
| `BoardRuns.IssuedMeansSealed` | `src/aigenora/ceremony/board.py:719-740` | an honest store that released a signature on a checkpoint hash holds it as its one sealed checkpoint, over a subset of what it has receipts for |
| `BoardRuns.RunCovers` | `src/aigenora/ceremony/board.py:712-735` | a record receipted before its store sealed is covered by whatever that store seals later in the run |
| `BoardProgress.BodyOverIsChecked` | `src/aigenora/ceremony/board.py:807-854` | the body a Witness signs passes every body check of a verifier |
| `BoardProgress.FirstSeal` | `src/aigenora/ceremony/board.py:719-773` | a store that has not sealed yet answers a correct request, sealed over exactly what it has receipts for |
| `BoardProgress.SignedCheckpointsCombine` | `src/aigenora/ceremony/board.py:857-897` | checkpoints signed over one record set by three or more different Witnesses always combine, and only their signatures are kept |
| `BoardProgress.AgreeingStoresSeal` | `src/aigenora/ceremony/board.py:857-935` | in a world where three Witnesses have sealed over the same records, their stored answers combine to a checkpoint that is accepted and free of forgery |
| `BoardLiveness.BallotsAreCounted` | `src/aigenora/ceremony/board.py:568-1015` | for every list of at most 2^53-1 admitted ballots with pairwise different nullifiers and every three or more honest Witnesses there is a run of submissions, stored receipts and checkpoints whose answers combine to a receipt for each ballot and one checkpoint, and the bundle over all of it is accepted and reports exactly these records and their number |
| `BoardResealing.SampleIsAdmitted` | `src/aigenora/ceremony/board.py:241-269` | on every board a ballot exists that passes every check while voting is open, provided its proof verifies |
| `BoardResealing.SomethingIsCounted` | `src/aigenora/ceremony/board.py:241-269` | there are a board, three or more honest Witnesses and a ballot to which `BallotsAreCounted` and `ForkWithoutFork` apply |
| `BoardResealing.AnswersAgainIff` | `src/aigenora/ceremony/board.py:741-756` | in every run a Witness that sealed at some action answers a later correct request if and only if it has stored receipts for no further record since then; otherwise it raises BOARD_FORK and changes nothing |
| `BoardResealing.LateReceiptForks` | `src/aigenora/ceremony/board.py:633-756` | a receipt for an accepted record that is not covered by the sealed checkpoint is stored, and the next correct request raises BOARD_FORK and changes nothing |
| `BoardResealing.ForkWithoutFork` | `src/aigenora/ceremony/board.py:633-756` | a run that ends in such a state: three Witnesses accept a ballot and seal before its receipt arrives |
| `BoardInterleaving.InterleavingReduces` | `src/aigenora/ceremony/board.py:633-664` | with the transactions of `store_receipt` interleaved in any way with those of other calls, the tables are those of a run of whole calls, and what a call checked before its last transaction still holds then |
| `BoardInterleaving.ReducedPrefix` | `src/aigenora/ceremony/board.py:633-664` | earlier moments of the interleaved run are earlier moments of that run |
| `BoardInterleaving.InterleavedAgreement` | `src/aigenora/ceremony/board.py:961-1015` | agreement of verifiers under every such interleaving |
| `BoardInterleaving.InterleavedInclusion` | `src/aigenora/ceremony/board.py:995-1015` | inclusion of records receipted by two honest Witnesses under every such interleaving |
| `BoardInterleaving.InterleavedUniqueness` | `src/aigenora/ceremony/board.py:415-452` | one record for each nullifier under every such interleaving |
| `WitnessInvariant.SubmitKeeps` | `src/aigenora/ceremony/board.py:568-631` | `submit` keeps the invariant, changes nothing when it raises, and answers with the acceptance that is stored |
| `WitnessInvariant.StoreReceiptKeeps` | `src/aigenora/ceremony/board.py:633-664` | `store_receipt` keeps the invariant even where it commits a record and then raises; success means that receipt and record are stored |
| `WitnessInvariant.CheckpointKeeps` | `src/aigenora/ceremony/board.py:686-773` | `checkpoint` keeps the invariant, touches no table but the checkpoint locks, and answers with the stored response |
| `WitnessInvariant.LocksMatchRecords` | `src/aigenora/ceremony/board.py:578-629` | record keys are acceptance keys, and the nullifier locks correspond to them one to one, each under its record's nullifier |
| `WitnessInvariant.OneAcceptancePerNullifier` | `src/aigenora/ceremony/board.py:580-590` | one store never accepts two records under one nullifier |
| `WitnessInvariant.ReceiptedIsStored` | `src/aigenora/ceremony/board.py:647-663` | every receipted record id is a stored record, under a receipt that verifies and says what was accepted |
| `WitnessInvariant.ResealCondition` | `src/aigenora/ceremony/board.py:741-756` | after sealing, the Witness answers again if and only if exactly the covered records are receipted; otherwise it raises BOARD_FORK |
| `WitnessInvariant.CoveredSetIsUnique` | `src/aigenora/ceremony/board.py:712-735` | the record set of a signed body is determined by its root |
| `WitnessStores.WitnessStore.constructor` | `src/aigenora/ceremony/board.py:488-550` | opening a database keeps its rows; a new one is empty; the invariant holds of the store if it held of the database |
| `WitnessStores.WitnessStore.Open` | `src/aigenora/ceremony/board.py:488-506` | a key outside the Final Manifest is refused; every listed key gets a store over the rows of its database |
| `WitnessStores.WitnessStore.Submit` | `src/aigenora/ceremony/board.py:568-631` | before voting opens it raises VOTING_NOT_OPEN and from its close on VOTING_CLOSED; in between it answers if and only if the text is the canonical text of a well-formed ballot whose proof verifies and no other record is stored under its nullifier; the answer repeats the record, is signed with the key of the Witness and is what is stored; otherwise nothing changes |
| `WitnessStores.WitnessStore.StoreReceipt` | `src/aigenora/ceremony/board.py:633-664` | run without interruption, the tables are those of the receipt step, its commit-then-raise path included; it succeeds if and only if the receipt is good and says what the store accepted, or comes with the text of a ballot that it describes and that can be accepted now; the whole receipt is then stored |
| `WitnessStores.WitnessStore.Checkpoint` | `src/aigenora/ceremony/board.py:686-773` | an answer needs the cutoff of this decision, height 1 and the genesis hash, and is given if and only if no checkpoint is stored or the stored one is over exactly the records that have receipts; it is signed over their root and number; with other records stored since, it raises BOARD_FORK |
| `WitnessStores.WitnessStore.ReceiptedRecordIds` | `src/aigenora/ceremony/board.py:666-671` | the receipted record ids, each once, in increasing order; there is no other such list |
| `WitnessStores.WitnessStore.LoadRecord` | `src/aigenora/ceremony/board.py:673-684` | a stored record reads back as a canonical record whose id is the one asked for; any other id is an error |
| `WitnessTables.AdmittedMeaning` | `src/aigenora/ceremony/board.py:555-577` | a ballot passes the checks before the transaction if and only if voting is open, its text is the canonical text of a well-formed record and its proof verifies; outside the window it raises VOTING_NOT_OPEN or VOTING_CLOSED |
| `WitnessTables.RefusedBallot` | `src/aigenora/ceremony/board.py:555-577` | while voting is open, a record that is no well-formed ballot is refused with its own error, and one whose proof does not verify with BALLOT_PROOF_INVALID |
| `WitnessTables.UnreadableBallot` | `src/aigenora/ceremony/board.py:555-577` | a text that is no canonical text is refused with NON_CANONICAL |
| `WitnessAnswers.SubmitMeaning` | `src/aigenora/ceremony/board.py:568-631` | what `submit` answers to every text at every time, said of the record in the text and of the stored records |
| `WitnessAnswers.StoreReceiptMeaning` | `src/aigenora/ceremony/board.py:633-664` | which receipts `store_receipt` accepts, and that an accepted one is then stored whole |
| `WitnessAnswers.CheckpointMeaning` | `src/aigenora/ceremony/board.py:686-773` | which requests `checkpoint` answers, what it signs, and when it raises BOARD_FORK |
| `WitnessAnswers.RequestMeaning` | `src/aigenora/ceremony/board.py:694-710` | only the request with the cutoff hash, height 1 and the genesis hash passes; of the others the first part that is wrong decides the error |
| `WitnessAnswers.StatementOfMeaning` | `src/aigenora/ceremony/board.py:289-301` | the statement about a ballot repeats its digest, nullifier and decision, and names the hash of the record |
| `WitnessAnswers.BodyOverMeaning` | `src/aigenora/ceremony/board.py:712-735` | the signed body has the root and number of the receipted records, the root of no records for challenges and disputes, and the context of this decision; there is only one such body |
| `Ballots.BallotErrorMeaning` | `src/aigenora/ceremony/board.py:241-269` | a record passes if and only if it has exactly the seven fields, the schema, profile and decision, the digest of its own candidate, a nullifier that `str` prints for some natural number, and an object as proof; otherwise the first of these groups that is wrong decides between NON_CANONICAL, CONTEXT_MISMATCH and CANDIDATE_DIGEST_MISMATCH |
| `Ballots.CandidateDigestBinds` | `src/aigenora/ceremony/board.py:225-238` | the candidate digest determines the candidate, the decision, the manifest hash and the tally key |
| `Ballots.StatementOfIsChecked` | `src/aigenora/ceremony/board.py:289-336` | the acceptance statement of a checked ballot passes every statement check of a verifier |
| `Ballots.RecordIdIsInjective` | `src/aigenora/ceremony/board.py:272-273` | different ballot records have different record ids |
| `Quorums.VerifyVotes` | `src/aigenora/ceremony/board.py:438-452` | the verification loop raises the first error in order of the entries, or a missing quorum, or nothing |
| `Quorums.EntryErrors` | `src/aigenora/ceremony/board.py:339-363` | a signature entry that is not genuine is refused with NON_CANONICAL if its key, signature or id is malformed, and with CONTEXT_MISMATCH otherwise |
| `Quorums.VotesErrorMeaning` | `src/aigenora/ceremony/board.py:433-452` | the loop passes if and only if the entries are genuine signatures of at least three different Witnesses in strictly increasing id order |
| `Quorums.GatherMeaning` | `src/aigenora/ceremony/board.py:381-402` | the combining loop succeeds if and only if all entries are genuine and no Witness offers two; it then holds each entry under its Witness and nothing else |
| `Quorums.GatherIgnoresOrder` | `src/aigenora/ceremony/board.py:381-402` | the combining loop gives the same dictionary for every order and repetition of the same entries |
| `Quorums.QuorumsShareHonest` | `src/aigenora/ceremony/manifest.py:16-17` | any two quorums of three out of four Witnesses share an honest one when at most one is faulty |
| `Receipts.StatementErrorMeaning` | `src/aigenora/ceremony/board.py:308-336` | a statement passes if and only if schema, profile, decision and epoch are those of this board, digest and record id are digests and the nullifier is a printed natural number; otherwise the first group that is wrong decides the error |
| `Receipts.MinimalDecimalMeaning` | `src/aigenora/ceremony/board.py:325-331` | the nullifiers that pass are exactly the texts that `str` prints for natural numbers |
| `Receipts.VerifyReceipt` | `src/aigenora/ceremony/board.py:415-452` | the method returns the receipt verdict, and a foreign quorum argument is refused |
| `Receipts.ReceiptVerdictMeaning` | `src/aigenora/ceremony/board.py:415-452` | a receipt is accepted, under its own id, if and only if it is well addressed, about this decision, and signed by a quorum |
| `Receipts.CombineAcceptances` | `src/aigenora/ceremony/board.py:366-412` | the method returns the combined receipt of the specification, with its errors in order |
| `Receipts.CombinedReceiptMeaning` | `src/aigenora/ceremony/board.py:366-412` | acceptances combine to a receipt if and only if it is a good receipt, all of them are for its statement, and its signatures are exactly theirs |
| `Receipts.CombinedReceiptVerifies` | `src/aigenora/ceremony/board.py:366-452` | whatever acceptances combine to is accepted as a receipt |
| `Receipts.CombinedReceiptIgnoresOrder` | `src/aigenora/ceremony/board.py:400-412` | the combined receipt does not depend on order or repetition of the acceptances |
| `Receipts.HonestAcceptancesCombine` | `src/aigenora/ceremony/board.py:366-412` | acceptances of one checked statement by three or more different Witnesses, each signing honestly, always combine |
| `Receipts.SameReceiptId` | `src/aigenora/ceremony/board.py:408-412` | two good receipts with one id are equal, signatures included |
| `Checkpoints.BodyErrorMeaning` | `src/aigenora/ceremony/board.py:807-854` | a body passes if and only if its schema, profile, decision, epoch, genesis and cutoff are those of this board, its height is 1, its roots are digests and its count is not negative; otherwise the first group that is wrong decides the error |
| `Checkpoints.CutoffHashBinds` | `src/aigenora/ceremony/board.py:276-286` | the cutoff hash determines decision, epoch and closing time |
| `Checkpoints.VerifyQuorumCheckpoint` | `src/aigenora/ceremony/board.py:900-935` | the method returns the checkpoint verdict, and a foreign quorum argument is refused |
| `Checkpoints.CheckpointVerdictMeaning` | `src/aigenora/ceremony/board.py:900-935` | a quorum checkpoint is accepted, under its hash, if and only if its body is in order, correctly hashed, and signed by a quorum |
| `Checkpoints.CombineCheckpoints` | `src/aigenora/ceremony/board.py:857-897` | the method returns the combined checkpoint of the specification, with its errors in order |
| `Checkpoints.CombinedCheckpointMeaning` | `src/aigenora/ceremony/board.py:857-897` | signed checkpoints combine to a quorum checkpoint if and only if it is good, all of them are for its body, and its signatures are exactly theirs |
| `Checkpoints.CombinedCheckpointVerifies` | `src/aigenora/ceremony/board.py:857-935` | whatever signed checkpoints combine to is accepted as a quorum checkpoint |
| `Checkpoints.CombinedCheckpointIgnoresOrder` | `src/aigenora/ceremony/board.py:877-897` | the combined checkpoint does not depend on order or repetition of the signed checkpoints |
| `Bundles.ScanRecordsMeaning` | `src/aigenora/ceremony/board.py:977-987` | the record loop passes if and only if every record is valid and proved and no two different records share a nullifier; it then knows exactly these records |
| `Bundles.ScanReceiptsMeaning` | `src/aigenora/ceremony/board.py:989-1000` | the receipt loop passes if and only if every receipt is valid and about a known record; it then accepts exactly their record ids |
| `Bundles.VerifyBoardBundle` | `src/aigenora/ceremony/board.py:961-1015` | the method accepts exactly the good bundles, with the root computed by the Merkle loop; every record of an accepted bundle is a well-formed ballot that binds its own candidate, with a proof that verifies |
| `Bundles.BundleVerdictMeaning` | `src/aigenora/ceremony/board.py:961-1015` | a bundle is accepted if and only if records, receipts and checkpoint are good and the sealed roots and count are those of the receipted set; the result reports that set |
| `Bundles.GoodRecordsMeaning` | `src/aigenora/ceremony/board.py:977-987` | records are good if and only if each is a well-formed ballot of this board with a proof that verifies, and no two different ones have the same nullifier field |
| `Bundles.AcceptedRecords` | `src/aigenora/ceremony/board.py:961-1015` | so is every record of every accepted bundle |
| `Bundles.FirstBadRecord` | `src/aigenora/ceremony/board.py:977-987` | a bundle whose first record that is no ballot of this board stands at some position is refused with the error of that record |
| `Merkle.HashLevel` | `src/aigenora/ceremony/board.py:471-481` | one round gives half as many nodes, rounded up: each is the hash of its two children in order, or an odd last node kept |
| `Merkle.ComputeRoot` | `src/aigenora/ceremony/board.py:465-482` | the root of the set of ids, whatever their order and repetitions, in ceil(log2 n) rounds |
| `Merkle.RoundKeepsLeaves` | `src/aigenora/ceremony/board.py:471-481` | a round leaves the in-order sequence of leaves under the level unchanged |
| `Merkle.MerkleRootIsInjective` | `src/aigenora/ceremony/board.py:455-482` | two sets of ids with one root are one set; the empty set shares its root with no other |
| `HashBytes.DomainSeparation` | `src/aigenora/ceremony/board.py:455-482` | the byte strings hashed for texts, leaves and nodes never coincide for different contents, with texts in UTF-8 and digests decoded from hexadecimal |
| `HashBytes.HashedIsIdeal` | `src/aigenora/ceremony/board.py:455-482` | a hash of bytes without collisions among what was hashed gives different digests to different hashed things |
| `HashBytes.CharBytesMeaning` | `src/aigenora/ceremony/canonical.py:83-84` | the bytes of a character are its number: the low bits of the lead byte and six bits of each continuation byte |
| `HashBytes.Utf8IsInjective` | `src/aigenora/ceremony/canonical.py:83-84` | a text is determined by its UTF-8 bytes |
| `HashBytes.UnhexIsInjective` | `src/aigenora/ceremony/board.py:455-456` | a digest as `hexdigest` writes it is determined by the 32 bytes it decodes to |
| `HashTags.PackageTextsAreHashable` | `src/aigenora/ceremony/canonical.py:120-133` | every tagged text of the modelled parts, every canonical text and the empty-board text meets the condition under which they are kept apart |
| `WireFormats.StatementFields` | `src/aigenora/ceremony/board.py:293-301` | an acceptance statement is signed as the object with exactly its seven named fields |
| `WireFormats.CheckpointRoots` | `src/aigenora/ceremony/board.py:719-731` | a checkpoint is hashed as the object with twelve fields, its four roots under their names |
| `WireFormats.CheckpointHashes` | `src/aigenora/ceremony/board.py:719-731` | its cutoff, decision, previous checkpoint and epoch under theirs |
| `WireFormats.CheckpointNumbers` | `src/aigenora/ceremony/board.py:719-731` | its height, count, profile and schema under theirs |
| `WireFormats.SignatureFields` | `src/aigenora/ceremony/board.py:344-352` | a signature entry is the object of key, signature and Witness id |
| `WireFormats.ReceiptFields` | `src/aigenora/ceremony/board.py:403-412` | the id of a receipt is taken of its schema, its statement and its signatures in order, and of nothing else |
| `WireFormats.BindingFields` | `src/aigenora/ceremony/board.py:229-238` | the candidate digest is taken of the candidate, the decision, the manifest hash, the profile and the tally key, under their names |
| `WireFormats.CutoffFields` | `src/aigenora/ceremony/board.py:278-286` | the cutoff hash is taken of decision, epoch, schema and closing time, under their names |
| `WireFormats.WitnessIdFields` | `src/aigenora/ceremony/board.py:214-216` | a Witness id is taken of the object with the public key |
| `WireFormats.RoleStatementFields` | `src/aigenora/ceremony/bus.py:428-435` | a role signs the object with exactly the six named fields of its statement |
| `WireFormats.OptionFields` | `src/aigenora/ceremony/tally.py:153-153` | an option is the object of its aggregate hash and its id |
| `WireFormats.AuthorizationFields` | `src/aigenora/ceremony/tally.py:154-170` | an authorization is hashed as the object with nine fields: counts, roots, decision and dispute hash under their names |
| `WireFormats.AuthorizationOptions` | `src/aigenora/ceremony/tally.py:154-170` | and its minimum, options in order, profile and schema under theirs |
| `WireFormats.IndexEntryFields` | `src/aigenora/ceremony/artifacts.py:290-298` | an index entry is the object of id, kind, length, path and hash |
| `WireFormats.IndexFields` | `src/aigenora/ceremony/artifacts.py:299-307` | an index is hashed as the object with seven fields: decision and entries under their names |
| `WireFormats.IndexCounters` | `src/aigenora/ceremony/artifacts.py:299-307` | the number of entries and the sum of their lengths under theirs |
| `WireFormats.IndexContext` | `src/aigenora/ceremony/artifacts.py:299-307` | and profile, schema and status under theirs |
| `Statements.MessagesAreSeparate` | `src/aigenora/ceremony/board.py:304-305` | a signature on an acceptance never passes for one on a checkpoint |
| `Statements.AcceptanceMessageIsInjective` | `src/aigenora/ceremony/board.py:304-305` | an acceptance message determines the whole statement |
| `Statements.CheckpointHashIsInjective` | `src/aigenora/ceremony/board.py:732-735` | a checkpoint hash determines the whole body |
| `Manifests.WitnessIdIsInjective` | `src/aigenora/ceremony/board.py:214-222` | different Witness keys have different Witness ids |
| `Manifests.WitnessMapLookup` | `src/aigenora/ceremony/board.py:219-222` | the Witness map gives a key for an id if and only if the id is that of a listed Witness |
| `CanonicalReader.CanonicalTexts` | `src/aigenora/ceremony/canonical.py:70-117` | the accepted texts are exactly those that a strict reader reads to their end, as the same value: safe integers without leading zeros, no null or float, strings without control characters, no escapes but of quote and backslash, no blanks, and the members of every object in strictly increasing key order |
| `CanonicalReader.CanonicalTextMeaning` | `src/aigenora/ceremony/canonical.py:70-80` | a value is written as the one text that is read strictly as it, and refused if there is none |
| `CanonicalReader.ValueReads` | `src/aigenora/ceremony/canonical.py:70-80` | the strict reader reads every printed value back, up to where its text ends |
| `CanonicalReader.ValueWritten` | `src/aigenora/ceremony/canonical.py:70-80` | whatever the strict reader reads, at the start of any text, is the printed text of a valid value |
| `CanonicalReader.AcceptedIsTight` | `src/aigenora/ceremony/canonical.py:74-80` | no accepted text has a blank outside its strings |
| `CanonicalReader.MembersInOrder` | `src/aigenora/ceremony/canonical.py:74-80` | the parser of all JSON finds the members of a canonical object in strictly increasing key order |
| `CanonicalLaws.ValueParses` | `src/aigenora/ceremony/canonical.py:70-117` | a printed value is read back as itself, up to where its text ends |
| `CanonicalLaws.ParseUndoesPrint` | `src/aigenora/ceremony/canonical.py:70-117` | parsing the canonical text of a valid value gives that value, whether canonical form is demanded or not |
| `CanonicalLaws.AcceptedTexts` | `src/aigenora/ceremony/canonical.py:87-117` | a text is accepted with a value if and only if the value is valid and the text is its canonical text |
| `CanonicalLaws.BlanksAreSkipped` | `src/aigenora/ceremony/canonical.py:105-117` | a blank before a value is skipped if canonical form is not demanded, and refused if it is |
| `CanonicalLaws.PrintIsInjective` | `src/aigenora/ceremony/canonical.py:70-80` | two valid values with one canonical text are equal |
| `CanonicalLaws.FromPairsMeaning` | `src/aigenora/ceremony/canonical.py:33-39` | pairs become a dictionary if and only if no key repeats, and it then holds each pair and no other key |
| `CanonicalLaws.PairsNoDuplicates` | `src/aigenora/ceremony/canonical.py:33-39` | the loop returns that dictionary or raises at the first repeated key |
| `Hashing.DomainTextMeaning` | `src/aigenora/ceremony/canonical.py:120-125` | the text that is hashed is the tag, a NUL, and the one text that is read as the value |
| `Hashing.DomainTextIsInjective` | `src/aigenora/ceremony/canonical.py:120-125` | the tagged text that is hashed determines tag and value, for tags without NUL |
| `Base64Url.EncodeRoundTrip` | `src/aigenora/ceremony/canonical.py:136-153` | decoding an encoded byte string gives it back; the text has ceil(4n/3) characters and no padding |
| `Base64Url.DecodeMeaning` | `src/aigenora/ceremony/canonical.py:140-160` | decoding succeeds with a byte string if and only if it is not empty, has the expected length if one is given, and the text is its encoding |
| `Base64Url.AcceptedTexts` | `src/aigenora/ceremony/canonical.py:140-160` | the accepted texts are exactly the canonical ones: URL alphabet, no lone last character, no bits set beyond the last byte |
| `Base64Url.EncodeIsInjective` | `src/aigenora/ceremony/canonical.py:136-137` | different byte strings have different texts |
| `BusSafety.ContributionMeaning` | `src/aigenora/ceremony/bus.py:271-291` | a contribution passes if and only if its role is registered and may send the kind, statement and payload are of this ceremony, named, hashed and typed right, and the key of the role verifies the signature over the canonical text of the statement |
| `BusSafety.ContributionErrors` | `src/aigenora/ceremony/bus.py:416-463` | the error for a contribution that does not state its payload: the first of names, context, payload and hash that is wrong decides |
| `BusSafety.StatementTextIsInjective` | `src/aigenora/ceremony/bus.py:280-289` | the signed text determines the whole statement |
| `BusSafety.MessageMeaning` | `src/aigenora/ceremony/bus.py:230-250` | a message passes if and only if both roles are registered, the kind is named and may be sent by the sender, and the payload is the encoding of 1 to 1048576 bytes |
| `BusSafety.ArtifactMeaning` | `src/aigenora/ceremony/bus.py:209-217` | an artifact passes, under its id, if and only if it is a public artifact of this ceremony or of its decision |
| `BusSafety.MessageErrors` | `src/aigenora/ceremony/bus.py:230-250` | the error for a message that does not fit: the first of roles, name, permission and payload that is wrong decides |
| `BusSafety.ArtifactErrors` | `src/aigenora/ceremony/bus.py:209-217` | a public artifact of another ceremony and decision is refused with CONTEXT_MISMATCH, anything else with the error of its verification |
| `BusSafety.FaultMeaning` | `src/aigenora/ceremony/bus.py:477-489` | a delivery is lost if and only if its number is a multiple of the drop interval; of the others, a message comes twice if and only if its number is a multiple of the duplication interval |
| `BusSafety.RegisterKeeps` | `src/aigenora/ceremony/bus.py:186-207` | registering a role keeps the bus invariant and changes nothing that was there |
| `BusSafety.EnterKeeps` | `src/aigenora/ceremony/bus.py:465-478` | counting and suspending a checked call keeps the invariant; after an abort it changes nothing |
| `BusSafety.CommitKeeps` | `src/aigenora/ceremony/bus.py:218-228` | the part of a call after its delay keeps the invariant, and after an abort only takes the call out of flight |
| `BusSafety.ReceiveKeeps` | `src/aigenora/ceremony/bus.py:383-389` | handing out an inbox keeps the invariant, and after an abort changes nothing |
| `BusSafety.AbortKeeps` | `src/aigenora/ceremony/bus.py:391-404` | the first abort record is the one that stays |
| `BusRuns.RunKeepsInvariant` | `src/aigenora/ceremony/bus.py:128-182` | under every interleaving: roles are the authorized ones, the log holds artifacts of this ceremony or decision with different ids, contributions are signed by their registered role over a statement about their payload and stored under their own kind and role |
| `BusRuns.RunGrows` | `src/aigenora/ceremony/bus.py:186-309` | under every interleaving roles, log entries, contributions and the abort record are written once and never changed |
| `BusRuns.AbortFreezes` | `src/aigenora/ceremony/bus.py:391-404` | once an abort is recorded no role, artifact, contribution, inbox or counter changes any more, not even through calls already past their delay |
| `BusRuns.ContributionIsWrittenOnce` | `src/aigenora/ceremony/bus.py:297-308` | the contribution of a role for a kind never changes once it is there |
| `BusRuns.CommittedOnce` | `src/aigenora/ceremony/bus.py:477-489` | a counted call takes effect at most once |
| `BusRuns.CollectMeaning` | `src/aigenora/ceremony/bus.py:311-358` | a quorum answer has at least the minimum of authentic contributions of the kind, one per role, each by an authorized role of an allowed kind, in the order of role ids; it waits exactly while there are too few |
| `BusRuns.QuorumsGrow` | `src/aigenora/ceremony/bus.py:327-343` | a later quorum answer contains every earlier one |
| `BusRuns.LogIsReadOnce` | `src/aigenora/ceremony/bus.py:360-381` | a subscriber that chains its cursors has read a prefix of the public log, in order, no artifact id twice, and all of it right after a call, aborted or not |
| `BusRuns.MessagesAreConserved` | `src/aigenora/ceremony/bus.py:259-269` | for each role, the messages received so far followed by the inbox are the messages committed to it, each 0, 1 or 2 times as the fault counters say |
| `BusSteps.EligibleMeaning` | `src/aigenora/ceremony/bus.py:160-182` | a quorum can be reached if and only if there are as many authorized roles of its allowed kinds |
| `CeremonyBuses.CeremonyBus.constructor` | `src/aigenora/ceremony/bus.py:173-182` | a new bus over a checked configuration is empty and satisfies the invariant |
| `CeremonyBuses.CeremonyBus.Open` | `src/aigenora/ceremony/bus.py:131-184` | construction succeeds if and only if the ids are digests, every role is authorized under its own id, for this ceremony and now, and every quorum is named and can be reached; an error reports a fault that is there |
| `CeremonyBuses.CeremonyBus.RegisterRole` | `src/aigenora/ceremony/bus.py:186-207` | the new state and the outcome are those of the registration step, invariant kept |
| `CeremonyBuses.CeremonyBus.BeforeDelivery` | `src/aigenora/ceremony/bus.py:465-478` | abort, disconnection, and then the counter; the call is suspended under its number, if and only if no abort stands and neither end is disconnected |
| `CeremonyBuses.CeremonyBus.Broadcast` | `src/aigenora/ceremony/bus.py:209-217` | the call is suspended if and only if the artifact is one of this ceremony or decision and no abort stands; invariant kept |
| `CeremonyBuses.CeremonyBus.SendToRole` | `src/aigenora/ceremony/bus.py:230-255` | the call is suspended if and only if the message fits, no abort stands and neither role is disconnected; invariant kept |
| `CeremonyBuses.CeremonyBus.SubmitContribution` | `src/aigenora/ceremony/bus.py:271-291` | the call is suspended if and only if the contribution is authentic, signature included, no abort stands and the role is not disconnected; invariant kept |
| `CeremonyBuses.CeremonyBus.Commit` | `src/aigenora/ceremony/bus.py:220-228` | the second part of every delivery: False if and only if its number is a multiple of the drop interval; aborted, published once, put once or (at multiples of the duplication interval) twice, or contributed without conflict |
| `CeremonyBuses.CeremonyBus.CollectQuorum` | `src/aigenora/ceremony/bus.py:311-358` | an answer has at least the minimum of authentic contributions of the kind, one per role, each by an authorized role of an allowed kind, in the order of role ids, and leaves none out; it waits if and only if there are too few, no abort stands and the deadline has not passed; the two errors exactly when the rule is missing or an abort stands |
| `CeremonyBuses.CeremonyBus.SubscribePublicArtifacts` | `src/aigenora/ceremony/bus.py:360-381` | what precedes the cursor and what is handed out make up the whole log, and the new cursor is its length; an error if and only if the cursor is negative, or nothing is new and an abort stands; it waits if and only if nothing is new, no abort stands and the deadline has not passed |
| `CeremonyBuses.CeremonyBus.ReceiveDirect` | `src/aigenora/ceremony/bus.py:383-389` | hands out the inbox and empties it |
| `CeremonyBuses.CeremonyBus.Abort` | `src/aigenora/ceremony/bus.py:391-404` | records the first abort and returns the record that stands |
| `TrustScores.GroupInbound` | `src/aigenora/agent/trust.py:35-37` | the table gives for each node its inbound edges in the order of the edge list |
| `TrustScores.Score` | `src/aigenora/agent/trust.py:35-58` | on every edge list: each node other than the target within the depth is found once, at its shortest distance, through the first edge that reaches it, and no other node; it contributes the weight of that edge times a factor one decay smaller than that of the node it was reached from, starting from 1 at the target; the exact score is the sum of the contributions; the search ends |
| `TrustReports.TrustScoreOf` | `src/aigenora/agent/trust.py:28-63` | the score shown is the nearest integer to the exact sum, and the paths shown are the first ten by distance of their rounded contribution from zero, equally far ones in order of discovery |
| `TrustReports.RoundMeaning` | `src/aigenora/agent/trust.py:55-60` | rounding gives the nearest integer, and of two equally near ones the even one |
| `TrustReports.TopMeaning` | `src/aigenora/agent/trust.py:62` | the paths shown are in order of size, equally large ones in order of discovery, and all rank before every path left out; there are ten of them, or all |
| `TrustScores.PowerLaws` | `src/aigenora/agent/trust.py:53` | `decay ** hop` is 1 for no hop, decay for one, and multiplies over sums of hops |
| `TrustScores.ReportIsWeighted` | `src/aigenora/agent/trust.py:52-54` | the contribution of every path, without powers: one decay more than that of its parent |
| `TrustScores.Expand` | `src/aigenora/agent/trust.py:49-58` | expanding one node records exactly its trusters that were not found before and keeps the search invariant |
| `TrustScores.ClosedIsShortest` | `src/aigenora/agent/trust.py:45-54` | once everything found is expanded, no chain of trust edges within the depth is shorter than the recorded hop |
| `TrustScores.ReportIsUnique` | `src/aigenora/agent/trust.py:42-58` | there is only one report, in contents and order, that satisfies the specification |
| `CeremonyStates.Replay` | `src/aigenora/ceremony/state.py:96-118` | the loop returns the state a history leads to, or the error of its first bad event |
| `CeremonyStates.ReplayConcatenation` | `src/aigenora/ceremony/state.py:96-118` | replaying a concatenation is replaying the parts in turn |
| `CeremonyStates.TransitionMeaning` | `src/aigenora/ceremony/state.py:59-93` | over all pairs of states: a transition is made if and only if it is one forward step, or leads from a state on the way into disputed or aborted, or from disputed to aborted, has a reason, and has evidence if it leads into disputed |
| `CeremonyStates.ReplayMeaning` | `src/aigenora/ceremony/state.py:96-118` | a history is replayed to a state if and only if every event has the known schema and records such a transition, each starts in the state where the one before ended, and the last one ends in that state |
| `CeremonyStates.HistoriesAreShort` | `src/aigenora/ceremony/state.py:25-39` | every accepted event lowers a rank, so a history from draft has at most eleven events |
| `CeremonyStates.LongestHistory` | `src/aigenora/ceremony/state.py:25-39` | a history of eleven events exists |
| `CeremonyStates.FinalizedHistories` | `src/aigenora/ceremony/state.py:25-39` | a history from draft to finalized makes exactly the ten forward transitions, in order |
| `CeremonyStates.DisputedHistories` | `src/aigenora/ceremony/state.py:73-85` | a history enters disputed only with evidence and can then only continue to aborted |
| `GuardianLedgers.GuardianAuthorizationLedger.constructor` | `src/aigenora/ceremony/tally.py:233-244` | a new ledger holds no lock |
| `GuardianLedgers.GuardianAuthorizationLedger.Acquire` | `src/aigenora/ceremony/tally.py:252-274` | a free decision is locked and answers True, the same hash answers False, another hash is refused; nothing else changes |
| `GuardianLedgers.GrantedIsLocked` | `src/aigenora/ceremony/tally.py:259-274` | a call that does not raise leaves its hash locked for the rest of the run |
| `GuardianLedgers.OneGrantPerDecision` | `src/aigenora/ceremony/tally.py:259-274` | after a grant, later calls for the decision answer False for the same hash and raise for every other |
| `GuardianLedgers.FirstGrantIsTrue` | `src/aigenora/ceremony/tally.py:259-274` | the first call for a decision that does not raise is the one that answers True |
| `GuardianLedgers.OneAuthorizationPerDecision` | `src/aigenora/ceremony/manifest.py:18-19` | two different authorizations of a decision are never both granted by three of five correct ledgers |
| `GuardianLedgers.OneAuthorizationInFull` | `src/aigenora/ceremony/tally.py:173-274` | so authorizations that three of five correct Guardians accepted and were granted for one decision are equal in every field |
| `Authorizations.Normalize` | `src/aigenora/ceremony/tally.py:143-152` | the loop pairs every option with its aggregate hash in the given order, or raises |
| `Authorizations.BuildMeaning` | `src/aigenora/ceremony/tally.py:111-170` | an authorization is built if and only if the board is large enough and ready, root and dispute hash are digests and the frozen order lists exactly the options, each named and with a digest; it is the stamped body of these inputs, options in order; too small and not ready boards have their own errors |
| `Authorizations.VerifyMeaning` | `src/aigenora/ceremony/tally.py:173-222` | an authorization is accepted, under its own hash, if and only if it fits its frame, its options are in the frozen order with digests, and the hash is that of its body |
| `Authorizations.VerifyErrors` | `src/aigenora/ceremony/tally.py:173-222` | the error for any other authorization: the first of context, count, options, text and hash that is wrong decides |
| `Authorizations.BuildThenVerify` | `src/aigenora/ceremony/tally.py:111-222` | every authorization that is built is accepted for the same inputs, under its own hash |
| `Authorizations.BuiltIff` | `src/aigenora/ceremony/tally.py:111-222` | an authorization is one that is built for a frame if and only if it is accepted there, the board is ready, both roots are the same digest, the dispute hash is a digest, and no option id is empty |
| `Authorizations.AcceptedNotBuilt` | `src/aigenora/ceremony/tally.py:155-222` | with any other text as its accepted-set root, hashed anew, an accepted authorization is still accepted and is never built |
| `Authorizations.SameHashSameAuthorization` | `src/aigenora/ceremony/tally.py:217-222` | two accepted authorizations with one hash are equal in every field |
| `DecisionProofs.TallyEntries` | `src/aigenora/ceremony/decision_proof.py:13-38` | the counts are accepted if and only if ids are in the frozen order, counts are not negative and add up to the accepted count; the first bad option decides the error |
| `DecisionProofs.OutcomeMeaning` | `src/aigenora/ceremony/decision_proof.py:41-54` | an option is selected if and only if its count is strictly above every other; otherwise there is no outcome |
| `DecisionProofs.SelectedCountIsLarge` | `src/aigenora/ceremony/decision_proof.py:36-54` | with n options a selected count m satisfies n*m >= accepted_count + n - 1 |
| `PublicArtifacts.FindForbiddenMeaning` | `src/aigenora/ceremony/artifacts.py:104-121` | nothing is reported if and only if no object at any depth has a forbidden key outside the exemption |
| `PublicArtifacts.FoundIsThere` | `src/aigenora/ceremony/artifacts.py:104-121` | a reported key is forbidden and occurs at a place that is exhibited |
| `PublicArtifacts.VerifyMeaning` | `src/aigenora/ceremony/artifacts.py:177-226` | an artifact is accepted under an id if and only if it has exactly the six fields of one scope, the schema and profile, a registered kind of that scope, a scope id and an artifact id that are digests, a body without private fields, and that id is the hash of the rest |
| `PublicArtifacts.VerifyErrors` | `src/aigenora/ceremony/artifacts.py:177-226` | ARTIFACT_HASH_MISMATCH if and only if everything but schema and profile is in order and the id is not the hash of the rest; every other refusal is NON_CANONICAL |
| `PublicArtifacts.MakeMeaning` | `src/aigenora/ceremony/artifacts.py:130-174` | an artifact is made if and only if exactly one id is given that is not empty, the one of the scope of the kind is a digest, and kind and body are in order |
| `PublicArtifacts.MakeThenVerify` | `src/aigenora/ceremony/artifacts.py:130-226` | what is made is accepted, under its own id, if and only if at most one of the two ids was passed in |
| `PublicArtifacts.VerifiedIsMade` | `src/aigenora/ceremony/artifacts.py:130-226` | conversely, every accepted artifact is what is made from its own kind, body and scope |
| `PublicArtifacts.EmptyIdIsNotVerified` | `src/aigenora/ceremony/artifacts.py:137-141` | a concrete artifact that is made with an empty second id and then rejected |
| `PublicArtifacts.SameIdSameArtifact` | `src/aigenora/ceremony/artifacts.py:219-226` | the id of an accepted artifact determines the whole artifact |
| `PublicArtifacts.VerifiedIsClean` | `src/aigenora/ceremony/artifacts.py:203-211` | no object at any depth of an accepted body has a forbidden key that its kind does not allow |
| `ArtifactValues.FindInValueMeaning` | `src/aigenora/ceremony/artifacts.py:104-121` | on bodies with tuples nothing is reported if and only if every forbidden key is inside a tuple |
| `ArtifactValues.FoundWhenRead` | `src/aigenora/ceremony/canonical.py:62-66` | where nothing was reported, the written form has a key that is reported if and only if a tuple holds a forbidden one |
| `ArtifactStores.ArtifactStore.constructor` | `src/aigenora/ceremony/artifacts.py:232-235` | a new store is empty |
| `ArtifactStores.ArtifactStore.Append` | `src/aigenora/ceremony/artifacts.py:237-263` | it succeeds exactly on public artifacts and then holds their canonical text under their id; no other file is added and none is changed |
| `ArtifactStores.ArtifactStore.Load` | `src/aigenora/ceremony/artifacts.py:265-272` | what is loaded under an id is a public artifact with that id, whose canonical text is the file; a missing file and an id that is no digest are told apart |
| `ArtifactStores.ArtifactStore.BuildIndex` | `src/aigenora/ceremony/artifacts.py:274-311` | the method returns the index of the specification |
| `ArtifactStores.AppendMeaning` | `src/aigenora/ceremony/artifacts.py:237-263` | appending succeeds exactly on accepted artifacts, adds that one file at most, and never meets an id collision |
| `ArtifactStores.AppendThenLoad` | `src/aigenora/ceremony/artifacts.py:237-272` | what was appended is loaded unchanged, from the store and from every store grown out of it |
| `ArtifactStores.AppendAllGrows` | `src/aigenora/ceremony/artifacts.py:237-263` | no sequence of appends changes a stored file |
| `ArtifactStores.AppendAllFiles` | `src/aigenora/ceremony/artifacts.py:237-263` | after a sequence of appends the store has exactly the files it had and those of the accepted artifacts in the sequence |
| `ArtifactStores.LoadedMeaning` | `src/aigenora/ceremony/artifacts.py:265-272` | in any directory: what is loaded is an artifact in the file of that name |
| `BundleIndexes.EntryMeaning` | `src/aigenora/ceremony/artifacts.py:279-298` | a file gets an entry if and only if it holds the canonical text of a public artifact and is named after its id; the entry has that id, its kind, the number of UTF-8 bytes, the path and the hash of the text |
| `BundleIndexes.BuiltIndexMeaning` | `src/aigenora/ceremony/artifacts.py:274-311` | an index is built if and only if status and decision id are in order and every file gets an entry; it is the sealed list of these in name order |
| `ArtifactStores.BuildThenLoad` | `src/aigenora/ceremony/artifacts.py:274-398` | an index over a store of accepted artifacts has one entry for each, in strictly increasing path order, and is accepted when it is read back |
| `ArtifactValues.AppendValueThenLoad` | `src/aigenora/ceremony/artifacts.py:237-272` | what was appended from memory is loaded unchanged if no tuple in its body holds a forbidden key, and loading raises if one does |
| `ArtifactValues.TupleIsNotSearched` | `src/aigenora/ceremony/artifacts.py:104-121` | a concrete body with a forbidden key inside a tuple: appended, stored, and refused when it is loaded |
| `BundleIndexes.LoadedIndexMeaning` | `src/aigenora/ceremony/artifacts.py:336-398` | a text is accepted as an index if and only if it is canonical, its entries are well formed and in strictly increasing path order, its two counters are right, and its root is the hash of the rest |
| `ArtifactStores.ReadEntries` | `src/aigenora/ceremony/artifacts.py:279-298` | the loop over the files returns all entries in order, or the error of the first bad file |
| `ArtifactStores.LoadIndex` | `src/aigenora/ceremony/artifacts.py:336-398` | the method returns the verdict of the specification on an index file |
| `ArtifactStores.ScanEntries` | `src/aigenora/ceremony/artifacts.py:362-385` | the loop over the entries checks each against its predecessor and adds up the lengths |

## Left out

- The SHA-256 and Ed25519 algorithms: ideal functions as above. The set of well-formed digests is an arbitrary predicate, because an injective hash into finitely many strings does not exist; so the rules about runs say nothing about the characters of hex strings. Leaves and nodes are kept apart from texts on the bytes themselves, for digests as `hexdigest` writes them; `require_hex` by itself also admits blanks.
- BoardRuns.NoFork: assumes unforgeability of the signatures in the checkpoints presented, not of all signatures in existence; the same holds for the other results about runs.
- Receipts, acceptances, checkpoints, authorizations and contributions are typed records: objects with missing, extra or ill-typed fields are rejected before the modelled part. Ballot records, public artifacts and indexes are JSON values, and there these errors are modelled.
- Strings are sequences of Unicode scalar values: UTF-8 decoding errors, unpaired surrogates, and the difference between text and bytes outside lengths are not modelled; nor are recursion limits of the JSON library and the length limit of `int()` on decimal strings.
- CanonicalLaws.AcceptedTexts: is about `parse_canonical_json` as it is called; nothing calls it with `require_canonical=False`, so what else `json.loads` then lets through is modelled but not characterised.
- Nullifiers: `isdigit` is modelled on ASCII digits; other Unicode digits fail the round trip through `int`, or make `int` raise, and are refused by the code as well.
- SQLite, files, `fsync` and renames: each transaction and each file write is one atomic step; rows are kept as values and not parsed again, except the raw ballot records, which are.
- The signature that `checkpoint` computes before it raises `BOARD_FORK` never leaves the call, so it does not count as released.
- The Final and Setup Manifests are taken validated, with distinct, well-formed keys in the frozen numbers; field-by-field schema checks and timestamps (`manifest.py`) are not modelled. The voting window is a comparison of integers.
- Proof and tally worker processes: an arbitrary predicate on records.
- WitnessStores.WitnessStore.Open: assumes that an existing database satisfies the store invariant, as every database written by this class does; files altered by something else are not modelled.
- WitnessStores.WitnessStore.StoreReceipt: does not show its transactions interleaved with other calls, because a method runs to its end; `BoardInterleaving` does.
- Role assignments: `verify_role_assignment` is an arbitrary predicate of assignment and time.
- Bus deadlines: whether a deadline has passed is an argument of every look at the bus. A cancelled `collect_quorum` is the same step as a call of `abort`. Values that a caller changes while its own call is suspended are not modelled.
- PublicArtifacts.FindForbiddenMeaning: is about JSON values, which have no tuples; `ArtifactValues.FindInValueMeaning` is about values in memory.
- PublicArtifacts.VerifiedIsClean: is about artifacts read from JSON; a body in memory can be accepted with a forbidden key inside a tuple, as stated above.
- ArtifactStores.AppendThenLoad: is about artifacts read from JSON; `ArtifactValues.AppendValueThenLoad` is about bodies in memory. The search itself is also used on messages of the bus, where tuples are not modelled.
- Which of several forbidden fields `_find_forbidden_field` names: the model visits members in key order, the code in insertion order. The regular expression for kinds is implied by the list of kinds.
- Files in the artifact directory that were not written by `append`, and the atomic replacement of the index file.
- The hash envelope of the provisional decision proof: only its tally entries and outcome are modelled. The verifier rebuilds the proof and compares, so accepting what was built says nothing more.
- Counts that are not integers, and pass or tie rules other than plurality without tie-breaking, which the code refuses.
- TrustReports.TrustScoreOf: does not model floating-point arithmetic; contributions and their sum are real numbers, and rounding is applied to their exact values.
- Snapshot download, caching and command-line output of `trust.py`; HTTP servers, command line, sessions and browser code of the repository.

# Verified models of the uno-arena core

uno-arena is a set of services for running Uno rooms and tournaments. This project models the parts in which a
mistake would be hardest to see, and proves what they keep true over all inputs, all runs and all interleavings.

- **Game Integrity** keeps the authoritative deck of a game. Cards and their text form (`Cards`), which orders the shuffle
  gives and how a place is drawn (`Shuffles`), the shuffled deck with its draw pointer (`Decks`), the reservation service
  over it (`DeckService`), the invariant of that service and what follows from it (`DeckInvariant`, `DeckTheorems`, with
  `Tiling` for the draws that cover the drawn prefix), what every request is answered over whole runs (`DeckAnswers`), what
  the published commitments pin down (`DeckCommitments`), the snapshot that is stored and everything that is checked when
  one is read back (`DeckSnapshot`), and what a snapshot that passes guarantees, whoever wrote it (`SnapshotChecks`).
- Several replicas share an event store. `Binding` and `BindingProtocol` model the log that binds a game id to one
  room: any number of callers, crashes between any two steps, appends that land late; `BindingProgress` says how retried,
  overtaken and failed callers end, and `BindingRaces` when such a late append gives the game a second room. `DeckStream`,
  `DeckStreamInvariant` and `DeckStreamProgress` model one encrypted deck stream: the race for its first write, the data
  key that all replicas must agree on, and the retry that runs a callback twice; `DeckStreamRetry` says what a call that
  lost its place still answers, `DeckStreamRaces` what acknowledging a later write by its UUID alone would mean, and
  `DeckEnvelopes` which sealed events can be read where.
- `KafkaConsumer` models the retrying batch consumer that Ranking, Gateway and Analytics share, with their different
  rules for quarantine, and `KafkaRaces` which logs let a quarantined aggregate reach the handler.
- `Backfill` and `Leaderboard` model Ranking's keyset paging, and `SealedCursor` the text of its cursors;
  `BackfillAnswers` and `LeaderboardAnswers` tell the answers from the requests' own texts and from the ratings alone.
  `RebuildMessage`, `Rebuild`, `RebuildInvariant` and `RebuildProgress` model the Analytics worker that rebuilds a
  projection page by page from that backfill, next to live events and a generation that is already being served;
  `RebuildRecovery` says what delivering a message again does for a rebuild that stopped halfway.
- `SqlSplit` models the ClickHouse statement splitter and `SqlTokens` what it makes of text put together from tokens;
  `ImpactGraph` and `ImpactPlanner` model the delivery planner of the CI and `PlannerRequests` what each changed path asks
  of it; `CanonicalJson` is the canonical JSON that Ranking fingerprints, and `JsonReader` a reader that it is read back
  with; `Encoders` holds the byte encodings that are hashed, authenticated or used as stream names. `Text.dfy` holds small
  modules about text that the others share.

Objects whose methods update fields are classes (`AuthoritativeDeck`, `DeckState`, `MemoryAnalyticsBackfillStore`,
`MemoryRatingStore`, `CycleCheck`, `Planner`), and their methods are proved against functions of the old state; loops
are methods with loops. Protocols between processes are labelled state machines: a run is a list of steps, chosen by
nobody in particular, and a theorem about runs is about every such list. Each protocol has both kinds of theorem: what
no run ever breaks, and what a caller that is left alone always achieves.

Where the code does something that one would not expect, the project says when:

- The shuffle's generator passes over words above a limit. Its documentation gives the largest multiple of n up to 2^64,
  the code the largest one up to 2^64 - 1; where n divides 2^64 the code passes over n words that the documentation would
  use (`Shuffles.DocumentedLimit`). Neither has a bias (`Shuffles.NoBias`).
- A peek adds pointer and count as machine integers. For counts near the largest integer the sum wraps and the slice
  panics; `DeckTheorems.WhenPanics` says exactly when, and `DeckTheorems.PanicIsReachable` gets there with one confirmed draw.
  Restoring a deck has the same sum and the same panic (`Decks.RestoreAuthoritativeDeck`).
- The snapshot of a deck that was never initialised does not read back; every other reachable snapshot does
  (`DeckSnapshot.RestoreRoundTrip`).
- A reservation id is a hash of ids joined by NUL bytes, and neither ids nor seats are checked for NUL. Two requests then
  share an id exactly when one operation id is the other one, a NUL and a part of a shape (`DeckTheorems.IdsCollide`), and
  every request has such a twin under a longer operation id (`DeckTheorems.EveryRequestCollides`). Without NULs ids are unique (`DeckTheorems.IdNames`).
- A length prefix has four bytes. Metadata with a field past 2^32 bytes can share its additional data with other metadata
  (`Encoders.LongFieldCollides`).
- Appends for the same position carry the same event UUID whatever they contain (`DeckStreamInvariant.RacersShareUuid`).
  The first write is re-read and compared; a later append relies on the store to decide by the expected revision. A store
  that went by the UUID alone would make the loser of a race give a false answer, exactly when the committed state is
  not the one it meant (`DeckStreamRaces.AnswerByUuid`, `DeckStreamRaces.UuidAloneMisleads`).
- When the outcome of a first deck append is unknown, the claim may be released. If that append lands after its caller read
  the stream, two rooms can hold decks for one game, exactly when the stream was not there to be read
  (`BindingRaces.LateLanding`).
- The handler can be called for an aggregate after its quarantine row exists, exactly when the first record of the aggregate
  in some partition can be handed to the handler and another partition of the topic holds a record of it too
  (`KafkaRaces.LateExactly`). Ranking takes the aggregate of a record without key from its body, so such records can do
  this (`KafkaRaces.KeylessRecordRaces`).
- A paging cursor is refused when its text contains a word such as `redis`, which base64 can produce by itself. A cursor that
  was issued is read back exactly when its text has none of these words (`SealedCursor.OpenSeal`,
  `SealedCursor.RedisInside`).
- A new projection generation starts as a copy of the one that is served, and live events are written to both. A rebuild
  ends with every in-range row and nothing of unknown origin; that it holds nothing else is certain when nothing was served
  and no live event came in (`RebuildInvariant.ActivatedIsExact`).
- `strip` can remove the line break that ends a line comment, so statements joined by a plain semicolon need not
  split again; they do exactly when none of them ends in a line comment (`SqlSplit.PlainRoundTrip`).

## Model

| member | source | states |
|---|---|---|
| Encoders.AadEncodesFields | services/game-integrity/src/envelope_meta.go:55-71 | the additional data is the list of all metadata fields, in order, each after its length |
| Encoders.FieldsInjective | services/game-integrity/src/envelope.go:236-244 | length-prefixed lists of fields shorter than 2^32 bytes, of any lengths, have distinct encodings |
| Encoders.CanonicalAADInjective | services/game-integrity/src/envelope_meta.go:55-71 | equal additional data means equal metadata: every field is bound |
| Encoders.LongFieldCollides | services/game-integrity/src/envelope_meta.go:55-71 | the bound is needed: from every metadata record come two different ones, with a field past 2^32 bytes each, that have equal additional data |
| Encoders.BuildDealShape | services/game-integrity/src/service.go:695-709 | the builder loop writes the shape text that the injectivity results are about |
| Encoders.DealShapeInjective | services/game-integrity/src/service.go:695-709 | a deal shape determines its seats and hand size, whatever characters the seats contain |
| Encoders.DrawShapeInjective | services/game-integrity/src/service.go:734-736 | a draw shape determines its count |
| Encoders.ShapesDisjoint | services/game-integrity/src/service.go:695-736 | no deal shape is a draw shape |
| Encoders.PreimageInjective | services/game-integrity/src/service.go:738-749 | with NUL-free room, game and operation ids the hashed text determines all four parts |
| Encoders.SamePreimage | services/game-integrity/src/service.go:738-749 | within a room and game two hashed texts are equal exactly when operation and shape are, or when one operation id is the other one, a NUL and the start of a shape whose rest is the other shape |
| Encoders.ShapeNulFree | services/game-integrity/src/service.go:695-736 | a deal shape is free of NUL exactly when its seats are, and a draw shape always is |
| Encoders.NulInOperationCollides | services/game-integrity/src/service.go:695-749 | for every operation and shape, a deal of two seats under that operation has the hashed text of the shape under a longer operation id |
| Encoders.StreamPartRoundTrip | services/game-integrity/src/stream_names.go:9-11 | unpadded base64url text decodes to the bytes it was made of, and never contains a dot |
| Encoders.StreamPartInjective | services/game-integrity/src/stream_names.go:9-11 | distinct ids have distinct parts |
| Encoders.StreamNameInjective | services/game-integrity/src/stream_names.go:9-23 | the three families of stream names are injective and pairwise disjoint |
| Cards.DecodeEncodeCard | services/game-integrity/src/cards.go:30-41 | a card without separator characters is read back from its text |
| Cards.EncodeDecodeCard | services/game-integrity/src/cards.go:30-41 | text that decodes is the text of the decoded card |
| Cards.OnlyDecoded | services/game-integrity/src/cards.go:30-41 | when the text of a card decodes at all, it decodes to that card |
| Cards.DecodeCards | services/game-integrity/src/cards.go:43-53 | decodes every card in order, and fails exactly when some card does not decode |
| Cards.StandardDeckCards | services/game-integrity/src/cards.go:57-78 | the counting loops list the 108 cards, each at its place and with its identity |
| Cards.StandardDeckDistinct | services/game-integrity/src/cards.go:57-78 | the 108 cards decode and are pairwise different |
| Cards.DeckComposition | services/game-integrity/src/cards.go:57-78 | of every colour and face the deck holds as many cards as the rules ask for: one zero and two of each other face per colour, four of each wild card, nothing else |
| Cards.ShuffleCards | services/game-integrity/src/domain/seed.go:80-92 | the in-place Fisher-Yates loop gives the specified permutation and leaves its input alone |
| Cards.ShuffleFromPermutes | services/game-integrity/src/domain/seed.go:80-92 | whatever the generator answers, the shuffle keeps the multiset of cards |
| Cards.DeckOrderCards | services/game-integrity/src/domain/deck.go:35-53 | the order of a new deck holds every card of the standard deck exactly once |
| Shuffles.OneChoice | services/game-integrity/src/domain/seed.go:80-92 | two generators order the deck in one way exactly when all their words leave the same remainders |
| Shuffles.EveryDeckOrder | services/game-integrity/src/domain/seed.go:80-92 | every order of the deck's cards comes up, for some choice of the places that are drawn |
| Shuffles.Uint64n | services/game-integrity/src/domain/seed.go:126-138 | the loop reads words until one is below the limit, and answers its remainder |
| Shuffles.NoBias | services/game-integrity/src/domain/seed.go:126-138 | every remainder is left by equally many of the words that are used |
| Shuffles.DocumentedLimit | services/game-integrity/src/domain/seed.go:66-74 | when the limit that is used is the documented one |
| Tiling.SortByFrom | services/game-integrity/src/domain/deck.go:115-116 | sorting spans by their start keeps the names and orders them |
| Tiling.ChainIsTheSortedList | services/game-integrity/src/domain/deck.go:115-127 | spans that cover a range without gap or overlap do so in one order only, the sorted one |
| Tiling.PiecesTile | services/game-integrity/src/domain/deck.go:115-127 | the pieces that such spans cut out of a sequence concatenate to its prefix |
| Decks.PeekTop | services/game-integrity/src/domain/deck.go:207-222 | a peek shows the next cards exactly when enough remain, and panics exactly when the sum of pointer and count wraps |
| Decks.PeekAhead | services/game-integrity/src/domain/deck.go:207-222 | a peek at any offset shows the cards there, and is refused exactly for bad numbers or too few cards, as long as the sums fit |
| Decks.DrawIsFinal | services/game-integrity/src/domain/deck.go:228-271 | whatever is drawn afterwards, a draw that was taken is repeated with the same cards, refused another count, and shares no card with later draws |
| Decks.NewAuthoritativeDeck | services/game-integrity/src/domain/deck.go:35-53 | refuses exactly a blank game, an empty seed and an empty list of cards; otherwise the deck holds the cards in shuffled order, nothing drawn |
| Decks.AuthoritativeDeck.Draw | services/game-integrity/src/domain/deck.go:228-271 | takes the next cards once per operation id; a repeat answers what it answered first, and a refusal changes nothing |
| Decks.AuthoritativeDeck.Remaining | services/game-integrity/src/domain/deck.go:192-198 | with the pointer it makes up the order, and it is the largest count that a new operation may draw and that a peek may show |
| Decks.RestoreAuthoritativeDeck | services/game-integrity/src/domain/deck.go:58-130 | restores exactly the material whose draws are slices of the order and cover everything up to the pointer, and then that deck; panics only over a draw whose end wraps, and always when nothing else is wrong with the draws |
| Decks.CoversFromZero | services/game-integrity/src/domain/deck.go:115-127 | the scan over the sorted spans accepts exactly when some order of the spans covers the range without gap or overlap |
| DeckService.DealNeedExact | services/game-integrity/src/deck_snapshot.go:376-388 | the division guard excludes exactly the needs that overflow a machine integer |
| DeckService.ValidateDealSeats | services/game-integrity/src/service.go:711-732 | accepts exactly the lists of two or more distinct seats that are not blank, in Unicode's sense of white space |
| DeckService.BuildDeal | services/game-integrity/src/deck_snapshot.go:407-425 | hands are consecutive slices in seat order, and the discard is the card after them |
| DeckService.OrderCommit | services/game-integrity/src/service.go:756-763 | the loop hashes the whole order, card by card |
| DeckService.DeckState.constructor | services/game-integrity/src/deck_snapshot.go:607-616 | the empty state |
| DeckService.DeckState.InitializeDeck | services/game-integrity/src/service.go:101-147 | the new state and the answer of initialising, in every case |
| DeckService.DeckState.ReserveDeal | services/game-integrity/src/service.go:180-311 | the new state and the answer of reserving a deal: validation, repeats, cancelled ids, the outstanding slot, too few cards, the hands |
| DeckService.DeckState.ReserveDraw | services/game-integrity/src/service.go:316-421 | the same for a draw |
| DeckService.DeckState.ConfirmReservation | services/game-integrity/src/service.go:425-478 | the new state and the answer of confirming: the draw is taken and recorded, or nothing changes |
| DeckService.DeckState.CancelReservation | services/game-integrity/src/service.go:482-511 | the new state and the answer of cancelling |
| DeckInvariant.ReserveFree | services/game-integrity/src/service.go:210-311 | in every reachable state a free operation is offered exactly the next cards, or refused for too few, and nothing else changes |
| DeckInvariant.ReserveTaken | services/game-integrity/src/service.go:210-311 | a request for an operation that is not free changes nothing |
| DeckInvariant.ConfirmTakes | services/game-integrity/src/service.go:433-478 | confirming the outstanding reservation takes exactly the window of cards that was shown |
| DeckInvariant.StepKeeps | services/game-integrity/src/service.go:101-511 | every request, accepted or refused, keeps the invariant of the stored state |
| DeckInvariant.Run | services/game-integrity/src/service.go:101-511 | so does every sequence of requests |
| DeckTheorems.ExportConfirmed | services/game-integrity/src/service.go:643-653 | collecting a map in any order and sorting by pointer gives an export of the state |
| DeckTheorems.ExportIsChain | services/game-integrity/src/service.go:643-653 | the exported operations cover everything drawn, without gap or overlap |
| DeckTheorems.ExportUnique | services/game-integrity/src/service.go:643-653 | the export does not depend on the order in which the map is walked |
| DeckTheorems.InvConserves | services/game-integrity/src/service.go:425-478 | in every reachable state each confirmed operation handed out the window of its own draw |
| DeckTheorems.ExportConserves | services/game-integrity/src/service.go:643-653 | conservation: what the exported operations handed out, hand after hand, is the drawn prefix of the order, and no card is handed out twice |
| DeckTheorems.OnePlace | services/game-integrity/src/service.go:210-510 | an operation is never at once outstanding, confirmed and cancelled, nor two of these |
| DeckTheorems.PhaseMoves | services/game-integrity/src/service.go:210-510 | an operation moves only from fresh to outstanding to confirmed or cancelled, and what was granted stays granted |
| DeckTheorems.RunMoves | services/game-integrity/src/service.go:210-510 | over any further requests, cancelled stays cancelled and a grant stays the same until then |
| DeckTheorems.Granted | services/game-integrity/src/service.go:210-414 | an answer that reserves shows what is then stored for the operation, under the id of its shape |
| DeckTheorems.AnswerFromGrant | services/game-integrity/src/service.go:210-414 | a repeat is answered from the stored grant, or refused when cancelled |
| DeckTheorems.RepeatedReserve | services/game-integrity/src/service.go:210-414 | every repeat of a granted request, at any later time, answers the same until it is cancelled, and is refused forever after |
| DeckTheorems.ConfirmNeverRejected | services/game-integrity/src/service.go:433-478 | a pending reservation is never rejected for lack of cards, and hands out the cards that were shown |
| DeckTheorems.CancelRestores | services/game-integrity/src/service.go:482-511 | cancelling frees the slot and leaves deck and confirmed operations as they were |
| DeckTheorems.CancelIsInvisible | services/game-integrity/src/service.go:316-511 | after a cancelled reservation another operation is answered as if it had never been made, and refused exactly when its own id is the cancelled one |
| DeckTheorems.IdsCollide | services/game-integrity/src/service.go:738-749 | with a collision-free hash two reservation ids are equal exactly when operation and shape are, or when one operation id extends the other by a NUL and a part of a shape |
| DeckTheorems.EveryRequestCollides | services/game-integrity/src/service.go:180-414 | for every valid request and every operation id there is a valid deal of that operation that has the reservation id of the request under a longer operation id |
| DeckTheorems.WhenPanics | services/game-integrity/src/service.go:210-414 | in every reachable state a reservation panics exactly when nothing stands in its way and the end of its window wraps; the state stays as it is |
| DeckTheorems.PanicIsReachable | services/game-integrity/src/service.go:316-421 | after one confirmed draw a draw of the largest machine integer panics |
| DeckTheorems.IdNames | services/game-integrity/src/service.go:738-749 | with a collision-free hash and NUL-free ids a reservation id names one operation and shape |
| DeckTheorems.NoCollision | services/game-integrity/src/service.go:738-749 | an id is then cancelled or confirmed only together with its own operation |
| DeckTheorems.CleanLife | services/game-integrity/src/service.go:210-414 | a granted request then repeats the same until its own operation is cancelled |
| DeckTheorems.PendingConfirms | services/game-integrity/src/service.go:433-478 | a pending reservation then confirms, and not as a duplicate |
| DeckAnswers.CancelIsFinal | services/game-integrity/src/service.go:425-511 | after a reservation was cancelled, every confirmation of it, at any later time, is refused as a conflict and changes nothing |
| DeckAnswers.ConfirmIsFinal | services/game-integrity/src/service.go:425-511 | after a confirmation that settled something, every confirmation of the same id is a duplicate and changes nothing, until that id is cancelled |
| DeckAnswers.UnknownIsRefused | services/game-integrity/src/service.go:425-511 | an id that no reservation ever had is refused, and cancelling it does nothing |
| DeckAnswers.NothingWithoutDeck | services/game-integrity/src/service.go:180-511 | before initialisation every confirmation and every valid reservation is refused, and nothing changes |
| DeckAnswers.InitializedOnce | services/game-integrity/src/service.go:101-147 | the first seed gives the order, both commitments and the number of cards; every later one is refused |
| DeckAnswers.SensibleIsProper | services/game-integrity/src/service.go:180-340 | validation lets through exactly the requests with a name, and a positive count or two or more different seats that are not blank and whose need is a machine integer |
| DeckAnswers.ReserveExactly | services/game-integrity/src/service.go:180-421 | every answer to a reservation and exactly when it is given, each refusal with its code; what is granted is the next cards, hand by hand |
| DeckCommitments.OrderTextInjective | services/game-integrity/src/service.go:756-763 | lists of cards without NUL have different hashed texts |
| DeckCommitments.CommitmentsBind | services/game-integrity/src/service.go:756-763 | with a collision-free hash one order commitment means one order, and one seed commitment one order too |
| DeckSnapshot.SnapshotFromDeckState | services/game-integrity/src/deck_snapshot.go:71-128 | the loops write every part of the state into the snapshot |
| DeckSnapshot.RestoreDeck | services/game-integrity/src/deck_snapshot.go:149-293 | accepts a deck part exactly when its seed reproduces both commitments and the order and its draws tile the drawn prefix; panics only over a draw whose end wraps |
| DeckSnapshot.CheckPending | services/game-integrity/src/deck_snapshot.go:295-373 | accepts a pending reservation exactly when its material is what the next cards give |
| DeckSnapshot.CheckConfirmed | services/game-integrity/src/deck_snapshot.go:485-548 | accepts a confirmed operation exactly when its material is what its draw gives |
| DeckSnapshot.CheckAllPending | services/game-integrity/src/deck_snapshot.go:149-293 | the loops over the pending reservation and its index accept exactly the consistent ones |
| DeckSnapshot.CheckAllConfirmed | services/game-integrity/src/deck_snapshot.go:149-293 | the loops over the confirmed operations and their index accept exactly the consistent ones |
| DeckSnapshot.DeckStateFromSnapshot | services/game-integrity/src/deck_snapshot.go:149-293 | returns a state exactly for the accepted snapshots that have all their maps and lists, and then the one that the snapshot describes |
| DeckSnapshot.RestoreRoundTrip | services/game-integrity/src/deck_snapshot.go:71-293 | every reachable state is read back unchanged from its snapshot; only a deck that was never initialised is refused |
| DeckSnapshot.IndexSizes | services/game-integrity/src/deck_snapshot.go:149-293 | the two indexes of the confirmed operations have one size, so comparing sizes refuses no reachable snapshot |
| DeckSnapshot.AcceptedConserves | services/game-integrity/src/deck_snapshot.go:149-548 | whoever wrote it, a snapshot that passes the checks restores a deck that hands out no card twice |
| SnapshotChecks.AcceptedDeck | services/game-integrity/src/deck_snapshot.go:149-293 | whoever wrote it, the seed of an accepted snapshot gives both commitments and the order, and its draws cover exactly what lies before the pointer |
| SnapshotChecks.AcceptedReads | services/game-integrity/src/deck_snapshot.go:149-293 | every accepted snapshot is read, with a deck |
| SnapshotChecks.AcceptedPending | services/game-integrity/src/deck_snapshot.go:295-373 | it has at most one outstanding reservation, under its id and its operation, and that shows the next cards of the deck in the form and number of its own shape |
| SnapshotChecks.AcceptedPendingConfirms | services/game-integrity/src/deck_snapshot.go:295-373 | confirming that reservation takes exactly the cards shown, and still no card is handed out twice |
| SnapshotChecks.AcceptedConfirmed | services/game-integrity/src/deck_snapshot.go:485-548 | every confirmed operation has its draw, shows that draw's cards in the form of its shape, and is found under its id |
| Binding.FoldBindingRecords | services/game-integrity/src/binding_state.go:66-101 | the loop with its lock variables computes the fold, errors included |
| Binding.LifecycleFolds | services/game-integrity/src/binding_state.go:66-101 | on a well-formed log the fold never fails and shows the last record |
| Binding.LifecycleShape | services/game-integrity/src/binding_state.go:66-170 | a log is well formed exactly when claims stand at its even places and their ends at the odd ones, with an active record only at the very end |
| Binding.ActiveAbsorbs | services/game-integrity/src/binding_state.go:66-101 | after an active record, on any log, the fold keeps room and token and fails exactly on a record of another room or game |
| Binding.OpenFold | services/game-integrity/src/binding_state.go:66-101 | on a log without an active record and without one that lacks a phase, the fold shows the last record |
| Binding.BoundFold | services/game-integrity/src/binding_state.go:66-101 | once some record is active or carries no phase, the fold is active for the room of the first such record, and fails exactly when a later record names another |
| Binding.BoundGameIsClosed | services/game-integrity/src/binding_state.go:103-170 | such a game is closed to every other room: claim, finalize and repair answer conflict for any token, and a release does nothing |
| Binding.OpenGameDecisions | services/game-integrity/src/binding_state.go:103-170 | what each decision answers for every other log that folds, by its last record |
| Binding.RecoveryExactly | services/game-integrity/src/binding_state.go:172-179 | a known failure releases the claim whatever is stored, an unknown one exactly when there is no deck |
| BindingProtocol.StepKeeps | services/game-integrity/src/kurrent_repo.go:318-719 | every step of every caller keeps the invariant of log, deck streams, tokens and appends under way |
| BindingProtocol.OneRoomPerGame | services/game-integrity/src/kurrent_repo.go:318-434 | in every run with unknown appends settled, at most one room has a deck for the game, and the binding names that room |
| BindingProtocol.LogIsLifecycle | services/game-integrity/src/kurrent_repo.go:578-719 | every reachable binding log is (claimed released)* (claimed (active)?)? with matching rooms and tokens |
| BindingProtocol.ActiveIsFinal | services/game-integrity/src/binding_state.go:66-170 | once active, no later step of anybody changes the log |
| BindingProtocol.OnlyOwnerReleases | services/game-integrity/src/kurrent_repo.go:656-681 | a release is sent only by the caller that owns the claim's token, and only while its room has no deck |
| BindingProtocol.EnsureNeverConflicts | services/game-integrity/src/kurrent_repo.go:683-719 | repairing the binding of a deck that exists never meets another room's binding |
| BindingProtocol.FreeGameCanBeTaken | services/game-integrity/src/kurrent_repo.go:318-407 | from every reachable state in which the game is free, a caller that is left alone ends with its deck and an active binding |
| BindingProgress.LoserRunsAgain | services/game-integrity/src/kurrent_repo.go:318-407 | from every reachable state a caller that lost its append and was not retried loads again and runs its callback a second time, with its token and for the last time |
| BindingProgress.FirstAppendEnds | services/game-integrity/src/kurrent_repo.go:387-405 | an acknowledged first append ends with the deck and an active binding of its room |
| BindingProgress.RetriedFirstAppendEnds | services/game-integrity/src/kurrent_repo.go:345-405 | a retried caller whose token still holds the game checks its claim and appends, and claims nothing again |
| BindingProgress.RecoveryEnds | services/game-integrity/src/kurrent_repo.go:410-434 | after a first append that failed or is unknown, the binding becomes active when the stream is there, and the caller's own claim is released when it is not |
| BindingProgress.OvertakenTriesAgain | services/game-integrity/src/kurrent_repo.go:578-719 | a binding record that is overtaken is tried again, up to eight times in all |
| BindingProgress.OvertakenEnsureEnds | services/game-integrity/src/kurrent_repo.go:683-719 | a repair that is overtaken fewer than eight times still ends with an active binding |
| BindingProgress.ExistingDeckEnds | services/game-integrity/src/kurrent_repo.go:343-407 | over an existing deck, a callback that changed nothing and an append that is there both end with an active binding of the room |
| BindingProgress.OrphanDeckIsBound | services/game-integrity/src/kurrent_repo.go:683-719 | a deck without a binding, whatever else the world holds, is claimed with a fresh token and finalized |
| BindingRaces.LateLanding | services/game-integrity/src/kurrent_repo.go:410-434 | from every reachable state in which a caller reads its stream too early, a second room can get a deck exactly when its append is still under way and the stream was not there |
| BindingRaces.UnsettledAppendBreaks | services/game-integrity/src/kurrent_repo.go:318-434 | for every game and every two rooms there is a run in which both get a deck |
| DeckStreamInvariant.EntryDecrypts | services/game-integrity/src/kurrent_repo.go:1024-1111 | with no cached key or the stream's, an event is never met with a changed key and decrypts to what its writer meant |
| DeckStreamInvariant.SnapshotInjective | services/game-integrity/src/deck_snapshot.go:595-605 | equal snapshots of reachable states are snapshots of equal states |
| DeckStreamInvariant.NextKeeps | services/game-integrity/src/kurrent_repo.go:318-1006 | every step of every replica keeps the invariant of stream, caches, calls and answers |
| DeckStreamInvariant.KeyIdentityNeverChanges | services/game-integrity/src/kurrent_repo.go:1113-1210 | in every interleaving all events carry event 0's key identity, every cache holds it or nothing, and a changed key identity is never reported |
| DeckStreamInvariant.FirstWriteIsCommitted | services/game-integrity/src/kurrent_repo.go:925-1018 | when a first write succeeds, however it was acknowledged, event 0 decrypts to the caller's snapshot and is its logical event |
| DeckStreamInvariant.CommittedIsRun | services/game-integrity/src/kurrent_repo.go:808-864 | the committed states are a run of the sequential machine over the committed requests |
| DeckStreamInvariant.StreamRefinesMachine | services/game-integrity/src/kurrent_repo.go:318-407 | every answer without error is the sequential machine's answer at its place in that run, within the time of the call, and two acknowledged later writes never share a place |
| DeckStreamInvariant.RacersShareUuid | services/game-integrity/src/kurrent_repo.go:1357-1359 | appends for one position have one event UUID whatever they contain |
| DeckStreamRaces.AnswerByUuid | services/game-integrity/src/kurrent_repo.go:866-1018 | in every reachable state an overtaken later append has the UUID of the event at its place; acknowledged for that, its call's answer is true exactly when the committed state is the one it meant |
| DeckStreamRaces.UuidAloneMisleads | services/game-integrity/src/kurrent_repo.go:318-407 | from every reachable state of an existing deck two idle replicas whose requests lead to different states can race to such a false answer |
| DeckStreamProgress.EntryReadable | services/game-integrity/src/kurrent_repo.go:1024-1111 | every event of a reachable stream passes authentication and decrypts |
| DeckStreamProgress.UncontendedCallAnswers | services/game-integrity/src/kurrent_repo.go:318-407 | in every reachable state a call that is left alone returns the in-memory store's answer and leaves its next state in the stream |
| DeckStreamProgress.EveryRunIsRealised | services/game-integrity/src/store.go:217-239 | every sequence of requests that the in-memory machine answers is committed, with all its answers, by some interleaving of the durable repository |
| DeckStreamRetry.OvertakenCallAnswers | services/game-integrity/src/kurrent_repo.go:387-405 | from every reachable state a call that has lost its place, for a first or a later write and whatever the store tells it, reloads, runs its callback again and answers as the machine does in the latest state; only a first write whose event 0 says the same answers as its own |
| DeckStreamRetry.AnchoredCallAnswers | services/game-integrity/src/kurrent_repo.go:925-1018 | the same for a first write that the store has acknowledged, perhaps by its UUID alone |
| DeckStreamRetry.SecondLossFails | services/game-integrity/src/kurrent_repo.go:387-407 | a call that loses a second time ends with an error and is told nothing |
| DeckEnvelopes.DecryptsExactly | services/game-integrity/src/kurrent_repo.go:1024-1111 | a sealed snapshot that turns up in any event at any place can be read exactly when the whole event is the one that was written, at its own place in its own stream, by a reader of its room and game that has its key |
| DeckEnvelopes.TamperingIsNoticed | services/game-integrity/src/kurrent_repo.go:808-864 | whatever is in the stream, differing keys raise the alarm, and a state is loaded only from a genuine latest event with an accepted snapshot |
| KafkaConsumer.KeysAgree | services/gateway/src/kafka_consumer.go:318-435 | the key that is checked for quarantine is the key that a failure quarantines |
| KafkaConsumer.AcceptableExactly | services/gateway/src/kafka_consumer.go:318-435 | which records may be accepted, and which key is looked up before that, for each of the three consumers |
| KafkaConsumer.StepKeeps | services/ranking/src/kafka_consumer.go:207-335 | every step of workers, batches, crashes and restarts keeps the invariant of positions and rows |
| KafkaConsumer.CommittedIsSettled | services/ranking/src/kafka_consumer.go:423-527 | in every run over any logs each record below a committed position was accepted by the handler or acknowledged by the dead-letter topic |
| KafkaConsumer.QuarantineHolds | services/ranking/src/kafka_consumer.go:423-527 | in every run over any logs what the handler accepted of an aggregate in a partition are the first of its records there, and a handler call for a quarantined aggregate needs logs that are a risk |
| KafkaConsumer.NextRecordIsSettled | services/analytics/src/kafka_consumer.go:299-398 | whatever led there and whatever the handler answers, a consumer that is left alone takes the next record to a commit: accepted exactly when its aggregate is not quarantined and an answer within the attempts accepts it, otherwise dead-lettered with its aggregate quarantined |
| KafkaConsumer.OnlyMatchingKeysAreCalled | services/ranking/src/kafka_consumer.go:423-527 | in every run only records whose key is the aggregate that their body names are handed to the handler or accepted, and with an accepted record all earlier ones of its partition that name its aggregate were accepted |
| KafkaConsumer.RestartCatchesUp | services/ranking/src/kafka_consumer.go:207-335 | after a crash in any reachable state a consumer that starts again settles all records of a partition and commits their end |
| KafkaConsumer.BatchStartsOver | services/ranking/src/kafka_consumer.go:207-242 | a batch that failed is worked through again from the first record of every partition |
| KafkaRaces.LateExactly | services/ranking/src/kafka_consumer.go:243-335 | over given logs the handler can be called for a quarantined aggregate exactly when the first record of an aggregate in some partition can be handed over and another partition of the topic holds a record of it |
| KafkaRaces.KeylessRecordRaces | services/ranking/src/kafka_consumer.go:423-690 | with Ranking's rules a record without key or readable body is enough, in any other partition and among any other records |
| Backfill.MemoryAnalyticsBackfillStore.Append | services/ranking/src/analytics_backfill.go:120-130 | appends one row under the next id |
| Backfill.MemoryAnalyticsBackfillStore.List | services/ranking/src/analytics_backfill.go:146-179 | the rows of the topic and range after the boundary, in id order, up to the limit |
| Backfill.AnalyticsBackfill | services/ranking/src/analytics_backfill.go:189-362 | the page of a request over the rows present and the text of its next cursor; trimming, a missing reader, a failing read and every other error included |
| Backfill.BuildAnswer | services/ranking/src/analytics_backfill.go:189-286 | one bad row fails the page; otherwise payloads, bounds, times and next cursor are those of the rows |
| Backfill.PageContent | services/ranking/src/analytics_backfill.go:189-286 | a page is the next nonempty chunk of the selected rows, with a cursor exactly when there are more |
| Backfill.PageServed | services/ranking/src/analytics_backfill.go:189-286 | a good range and cursor over good rows is always answered |
| Backfill.TurnDelivers | services/ranking/src/analytics_backfill_cursor.go:71-139 | a page asked for with the cursor after the k-th row continues exactly there |
| Backfill.WalkIsComplete | services/ranking/src/analytics_backfill.go:189-286 | following the cursors with any limits while rows are appended delivers exactly the in-range rows of the last read, once, in id order, in at most one page per row, and never ends on an empty page |
| Backfill.CursorIsAccepted | services/ranking/src/analytics_backfill_cursor.go:92-139 | the cursor that a page issued is accepted for the next request |
| Backfill.NextTextIsRead | services/ranking/src/analytics_backfill_cursor.go:71-139 | the cursor text that a page issues is read back as its cursor exactly when it contains no guard word |
| BackfillAnswers.RequestIsRead | services/ranking/src/analytics_backfill.go:296-362 | which requests are read, and that they select exactly the rows of the topic between their two checkpoint texts and their two time texts |
| BackfillAnswers.RangeIsWanted | services/ranking/src/analytics_backfill.go:296-362 | the range of a whole walk is the one of those texts |
| BackfillAnswers.AnsweredExactly | services/ranking/src/analytics_backfill.go:189-362 | every answer and exactly when it is given: the first wanted rows after the cursor up to the limit, their bounds and times, and a cursor exactly when more remain; refused exactly when the request is not proper or its cursor is another query's |
| SealedCursor.OpenSeal | services/ranking/src/store/leaderboard_cursor.go:68-138 | a cursor that was written is read back exactly when its text contains no guard word, and refused otherwise |
| SealedCursor.OpenedIsAuthentic | services/ranking/src/store/leaderboard_cursor.go:85-138 | text that is accepted carries the MAC of its own payload and is what that payload says |
| SealedCursor.OpenedExactly | services/ranking/src/store/leaderboard_cursor.go:85-138 | a text is accepted exactly when it is the prefix, a payload and that payload's MAC, holds no guard word, and says a proper cursor |
| SealedCursor.RedisInside | services/ranking/src/store/leaderboard_cursor.go:87-95 | content for which base64 writes a guard word |
| Leaderboard.BoardUnique | services/ranking/src/domain/leaderboard.go:9-35 | one map of ratings has one board, whatever the order in which the map is walked |
| Leaderboard.MemoryRatingStore.FromSnapshots | services/ranking/src/domain/leaderboard.go:22-35 | lists every player once, in board order, by the rating that the board type asks for |
| Leaderboard.MemoryRatingStore.LeaderboardPage | services/ranking/src/store.go:61-111 | the page of either board after the cursor that the text stands for, the next cursor's text, and a new projection version; a refused cursor changes nothing |
| Leaderboard.FindStart | services/ranking/src/store.go:61-111 | the scan stops at the first entry that comes after the cursor |
| Leaderboard.StartAfter | services/ranking/src/store.go:61-111 | a cursor taken from an entry continues right after it |
| Leaderboard.NextTextIsRead | services/ranking/src/store/leaderboard_cursor.go:68-138 | the cursor text of a page is read back as its cursor exactly when it contains no guard word |
| Leaderboard.WalkShowsBoard | services/ranking/src/store.go:61-111 | following the cursors over a fixed board shows all of it in order with ranks 1 to n, in at most one page per entry |
| LeaderboardAnswers.PlaceCounts | services/ranking/src/domain/leaderboard.go:9-35 | the entry at place i of a board has exactly i players ahead, by rating and then by name |
| LeaderboardAnswers.PageExactly | services/ranking/src/store.go:61-111 | a page shows the first players after its cursor with the true ranks, as many as the limit allows, and has a next cursor exactly when players remain |
| RebuildMessage.EncodeRequest | services/analytics/src/kafka_rebuild_parse.go:263-292 | writes exactly the fields that the request has values for |
| RebuildMessage.ParsedIsWellFormed | services/analytics/src/kafka_rebuild_parse.go:60-179 | what the parser accepts is trimmed, complete and consistent |
| RebuildMessage.ParsedExactly | services/analytics/src/kafka_rebuild_parse.go:60-222 | a message is read as a request exactly when it says that request, field by field, and carries no row data |
| RebuildMessage.EncodeRoundTrip | services/analytics/src/kafka_rebuild_parse.go:60-292 | a well-formed request is parsed back unchanged |
| RebuildMessage.FollowUpSurvives | services/analytics/src/kafka_rebuild_consumer.go:254-272 | the follow-up of a parsed request survives encoding and parsing unchanged |
| Rebuild.VerifyPageContinuity | services/analytics/src/store/recovery.go:711-747 | accepts exactly page lists without holes whose cursors link from the empty one to a last page |
| Rebuild.ContinuousExactly | services/analytics/src/store/recovery.go:711-747 | the same page by page: every index once, every page continues the one before it, only the last has no next cursor |
| RebuildInvariant.FetchedPage | services/analytics/src/analytics_backfill_client.go:78-176 | the page for an issued cursor holds exactly the rows after those already applied |
| RebuildInvariant.CursorsDistinct | services/analytics/src/kafka_rebuild_consumer.go:55-206 | no two pages of a job have one cursor |
| RebuildInvariant.ContinuedIsFound | services/analytics/src/kafka_rebuild_consumer.go:208-252 | a page that is on record as followed up is found, with its next cursor |
| RebuildInvariant.ChainIsContinuous | services/analytics/src/store/recovery.go:631-704 | after the last page the activation check passes |
| RebuildInvariant.StepKeeps | services/analytics/src/kafka_rebuild_consumer.go:55-272 | every delivery, page step, clone, live write, crash and takeover keeps the invariant of the job |
| RebuildInvariant.ActivatedIsExact | services/analytics/src/store/recovery.go:248-404 | when a job activates, its generation holds every in-range row under its key, and every record in it comes from the generation that was served before, a live event or an in-range row; with nothing served and no live event it is exactly the in-range rows |
| RebuildInvariant.EveryCursorIsOnTheChain | services/analytics/src/kafka_rebuild_consumer.go:388-401 | every message asks for the empty cursor or one on the chain from it with all earlier pages applied; a page that is on record as followed up never lacks its next cursor |
| RebuildInvariant.LiveEventsStay | services/analytics/src/store/recovery.go:248-404 | a live event stays under its key in every generation it was written to, whatever happens afterwards |
| RebuildInvariant.ProgressIsExact | services/analytics/src/store/recovery.go:186-207 | in every run each page is counted once however often it is delivered, and when the job is active the count is that of the in-range rows |
| RebuildProgress.UndisturbedJobActivates | services/analytics/src/kafka_rebuild_consumer.go:55-272 | from every reachable state with a message for the next page, whose in-range rows agree with what is served under their keys, a worker that is left alone activates the job, with every in-range row that the producer has and nothing of unknown origin |
| RebuildProgress.SubmittedJobActivates | services/analytics/src/kafka_rebuild_consumer.go:55-272 | a submitted job over any rows of the producer and any served generation that agrees with them can be taken to its activation with every in-range row, and with nothing else when nothing was served |
| RebuildRecovery.RedeliveryPublishesAgain | services/analytics/src/kafka_rebuild_consumer.go:75-103 | in every reachable state a redelivered message of a followed-up page publishes the follow-up again, with the recorded event id, the redelivered request as cause and the cursor of the page's one checkpoint, and changes nothing else |
| RebuildRecovery.StoppedJobRecovers | services/analytics/src/kafka_rebuild_consumer.go:55-272 | from every state that a run of a submitted job reaches, delivering its first message again takes a worker that is left alone to the end of the job, without any message for the next page being there |
| RebuildRecovery.RowsOfTheJob | services/analytics/src/analytics_backfill_client.go:78-176 | the in-range rows of a job are those of its topic between its two checkpoints and its two times |
| RebuildRecovery.ActivationIsGuarded | services/analytics/src/store/recovery.go:631-704 | whatever the store holds, a generation is activated exactly over pages that are all counted and link without gap |
| SqlSplit.StatementEmpty | infrastructure/bootstrap/lib/clickhouse_sql_split.rb:163-200 | the scan finds exactly the texts of comments and white space |
| SqlSplit.SplitStatements | infrastructure/bootstrap/lib/clickhouse_sql_split.rb:13-160 | the lexer loop computes the split, its errors included |
| SqlSplit.SplitGivesStatements | infrastructure/bootstrap/lib/clickhouse_sql_split.rb:13-160 | every piece is a stripped statement that is not empty, closes its quotes and block comments, and has no semicolon in code |
| SqlSplit.StatementSplits | infrastructure/bootstrap/lib/clickhouse_sql_split.rb:13-160 | a statement splits into itself |
| SqlSplit.LinesRoundTrip | infrastructure/bootstrap/lib/clickhouse_sql_split.rb:13-200 | the statements of any text, each followed by a line break and a semicolon, split into the same statements |
| SqlSplit.PlainRoundTrip | infrastructure/bootstrap/lib/clickhouse_sql_split.rb:13-200 | with a plain semicolon they do exactly when no statement ends in a line comment |
| SqlSplit.PlainFails | infrastructure/bootstrap/lib/clickhouse_sql_split.rb:13-200 | two statements for which a plain semicolon fails and a line break before it does not |
| SqlTokens.TokensSplit | infrastructure/bootstrap/lib/clickhouse_sql_split.rb:13-200 | text put together from quoted values, comments and plain characters splits at the semicolons between its statements and nowhere else, and drops exactly the statements of comments and white space |
| SqlTokens.ValueNeverSplits | infrastructure/bootstrap/lib/clickhouse_sql_split.rb:81-138 | a value quoted with backslashes or with doubled quotes is one token whatever it contains, and the next semicolon splits |
| ImpactGraph.CycleCheck.Visit | ci/lib/impact_map.rb:252-264 | a visit finishes its node and leaves the path as it was, or has found a cycle |
| ImpactGraph.FinishedAcyclic | ci/lib/impact_map.rb:252-264 | when every node is finished there is no cycle |
| ImpactGraph.ValidateAcyclicGraph | ci/lib/impact_map.rb:252-264 | raises exactly when the dependencies form a cycle |
| ImpactGraph.TransitiveDependents | ci/lib/impact_map.rb:70-80 | ends with exactly the nodes that reach a seed, each once |
| ImpactPlanner.Planner.Mark | ci/lib/impact_planner.rb:266-271 | adds the selected environments to one entry and changes no other |
| ImpactPlanner.Planner.ApplyOwnerEffect | ci/lib/impact_planner.rb:206-243 | the exact effect of each kind of owner on every entry, and when it raises |
| ImpactPlanner.Planner.ApplyRepositoryEffect | ci/lib/impact_planner.rb:245-264 | the same for repository-wide effects |
| ImpactPlanner.Planner.Request | ci/lib/impact_planner.rb:39-59 | the entries that the manual selection or the changed paths ask for, whether the inventory is to be validated, and when the planner raises |
| ImpactPlanner.Planner.Publish | ci/lib/impact_planner.rb:61-72 | the two loops publish only what was asked for and only in eligible pipelines, and what they promote can be reconciled somewhere |
| ImpactPlanner.Planner.Spread | ci/lib/impact_planner.rb:75-94 | although entries are read while they are changed, an entry ends up marked exactly for what it had and for what some seed, as it was, gives its dependents |
| ImpactPlanner.Planner.Plan | ci/lib/impact_planner.rb:23-107 | when it raises, what every entry of the plan is, when the inventory is to be validated, and that a publish-eligible plan is closed under dependents |
| ImpactPlanner.SpreadCloses | ci/lib/impact_planner.rb:75-94 | whatever is marked for an environment, everything that depends on it and supports the environment is marked too |
| ImpactPlanner.PlanReaches | ci/lib/impact_planner.rb:75-94 | a published entry reconciles all its dependents wherever both can be reconciled, and nothing is reconciled without having been asked for or depending on something published or asked for |
| PlannerRequests.PathsAskExactly | ci/lib/impact_planner.rb:39-59 | over all changed paths, the planner raises exactly when one of them does, and an entry is tested, built, charted or reconciled exactly when one of them asks for it |
| PlannerRequests.SelectionAsksExactly | ci/lib/impact_planner.rb:39-48 | the same for a manual selection |
| PlannerRequests.PlanSaysExactly | ci/lib/impact_planner.rb:61-94 | the finished plan: what is published, and where each entry is reconciled |
| PlannerRequests.ChangesArePlanned | ci/lib/impact_planner.rb:23-107 | from the changed paths to the plan |
| PlannerRequests.ProductionIsGuarded | ci/lib/impact_planner.rb:23-37 | nothing is promoted outside the main branch, nor to production with a schema change or without preflight; and when a pipeline is blocked |
| StringOrder.SortedKeys | services/ranking/src/kafka_tournament_parse.go:314-319 | collecting keys in any order and sorting them gives one list |
| StringOrder.LessExactly | services/ranking/src/kafka_tournament_parse.go:314-319 | the order of keys is the byte order: a proper prefix first, otherwise by the first difference |
| CanonicalJson.WriteCanonical | services/ranking/src/kafka_tournament_parse.go:312-369 | the recursive writer, walking maps in any order, writes one text per value |
| CanonicalJson.QuoteRun | services/ranking/src/kafka_tournament_parse.go:324-328 | quoted strings are read back in one way, every escape included |
| CanonicalJson.CanonicalInjective | services/ranking/src/kafka_tournament_parse.go:312-369 | different JSON values with numbers as text have different canonical texts |
| CanonicalJson.PlayersAdvancedKeyInjective | services/ranking/src/kafka_tournament_parse.go:284-290 | a business key names one tournament, round and slot |
| CanonicalJson.FingerprintExact | services/ranking/src/kafka_tournament_parse.go:292-310 | with a collision-free digest two records have one fingerprint exactly when they agree on the identity and on every optional field, absence included |
| JsonReader.CanonicalReads | services/ranking/src/kafka_tournament_parse.go:312-369 | canonical text is JSON by the grammar in section 2 of RFC 8259, for the very value it was written for |
| JsonReader.QuotedIsClean | services/ranking/src/kafka_tournament_parse.go:324-328 | a quoted string holds no control, HTML or line separator character |

## Left out

- HTTP routing, credentials, telemetry, audit records, configuration, process lifecycle and the test seams of the repositories.
- The room log with its game events, Elo and tournament award arithmetic, and the rules of Uno.
- SHA-256, AES-GCM, HMAC, the name-based UUID and the words of the shuffle's counter generator: they are functions given from outside, collision-free or authenticated where a theorem says so. The shuffle takes its generator's word for a step as the one that rejection sampling has let through; that sampling is modelled on its own (`Shuffles.Uint64n`), over the part of the stream that it is given.
- The JSON text of snapshots, envelopes and messages, and with it nil maps and slices: these are modelled as records and field maps.
- Mutexes, goroutines and sleeping: one replica runs its calls for one deck one after the other, and every read, decision and append of a protocol is one step of a state machine on values. Aliasing between the state handed to a callback and the stored one is therefore not modelled for the protocols; the classes model it for a single caller.
- Liveness of stranded claims: a caller that stops between its claim and its deck append leaves a claim that nobody can release.
- No run of the binding protocol starts from a log that holds records of an older version; what such logs fold to and answer is said by Binding.BoundFold and Binding.BoundGameIsClosed for every log.
- Rebalances and consumers that go on working after losing a partition: one consumer at a time owns all partitions.
- The consumer loop around the rebuild worker, with its attempts and dead letters: a message may be delivered, taken over or dropped at any time instead.
- Job times are stored with millisecond precision but compared at full precision; the model compares what was sent.
- ImpactPlanner.Planner.Plan: does not match path patterns or look up the owner of a path, and leaves out the applications of the control plane; a changed path comes with its one owner and the entries whose patterns it matches.
- Field-by-field validators of the Kafka topics and of backfill envelopes: they are one predicate each.
- Unicode normalisation: text is a sequence of bytes, which are characters below 256.
- Writing statement files to a directory.
- The shuffle of an empty seed, which the constructor of a deck refuses before it shuffles.
- Decks.RestoreAuthoritativeDeck: when one draw has an end that wraps and another draw is wrong in another way, it depends on the walk over the map whether restoring panics or is refused; both are allowed here.
- BindingProtocol.OneRoomPerGame: holds for runs in which an append with unknown outcome has landed, or never will, by the time its caller looks for the stream; without that it is false, and BindingRaces.LateLanding says exactly when.
- DeckStreamInvariant.StreamRefinesMachine: assumes that the store accepts an append after the first one only at the expected revision; first writes are also modelled with acknowledgements by UUID alone.
- KafkaConsumer.QuarantineHolds: that the handler is never called for a quarantined aggregate is false in general; KafkaRaces.LateExactly says for which logs.
- RebuildInvariant.ActivatedIsExact: covers runs up to the first quarantined record, and assumes that only the holder of the lease writes; in the code a worker that lost its lease can still apply records.
- Backfill.TurnDelivers: takes cursors as authenticated records; as text they are read back unless they contain a guard word, as Backfill.NextTextIsRead says.
- SealedCursor.OpenSeal: JSON and the MAC are given functions; a cursor whose text is not valid UTF-8 is changed by JSON before it is sealed.
- CanonicalJson.WriteCanonical: does not model numbers given as floating point, which the decoder never produces.
- Cards.DecodeEncodeCard: needs a card without separator characters; Cards.StandardDeckDistinct shows that the cards in use have none.

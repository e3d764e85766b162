# Verification of the NPLN server's core

The NPLN server answers the online services of Splatoon 3: a document store shared by two processes, matchmaking,
cloud saves, traffic capture, session addresses, in-game messaging documents, referee reports, stage rotations,
Salmon Run point cards, Splatfest scores and bans. This project models the parts of it that carry state, loops or
byte formats, and proves what they keep over whole runs. `dafny verify dfyconfig.toml` checks everything.

Code that updates fields or slices in place is a class or a method with a loop, proved against a function or a step
relation; what the server promises is then proved about that function, or about every run of those steps.

| modules | part of the server | main results |
|---|---|---|
| `DocumentJournal`, `DocumentStore` | two processes, one directory, one change journal | in every interleaving, memory equals the disk, or the journal will still tell, or a write is in flight; hence one refresh makes memory equal the disk, and a query lists exactly what is on disk |
| `CampSplit`, `MatchConfig`, `MatchQueue`, `MatchRuns`, `Matchmaker` | the matchmaking queue | at rest no ordinary mode holds a full room; one exit and at most one message per waiter; complete, distinct rosters of the earliest arrivals; the camp split is found exactly when it exists |
| `SaveMerge`, `SaveMergeInPlace`, `SaveStore` | the cloud-save merge and its record store | the result does not depend on the order of the keys; a third application changes nothing; exactly when one application is enough, and exactly when two deltas commute; the in-place merge shares nothing with its delta |
| `Framing`, `Frames` | the HTTP/2 frame splitter, the one-pass reader, the gRPC messages inside | any chunking notes exactly the frames of one pass; written frames and messages are read back; the incremental and the one-pass reader agree after a preface, and what each finds without one |
| `Protobuf`, `ProtoMessage`, `SessionRewrite`, `ReplayPatch` | varints, messages, path rewriting, payload patching | round trips, and the byte layout itself; a rewrite changes exactly the addressed fields, reads back, overrides and commutes exactly when stated; where the two varint decoders differ |
| `Gamesync`, `Arbitrage` | the game documents, sessions, mailboxes, referee reports | one flat store is a map per game; last writer wins per field; distinct ranks over every run; exact mailboxes; complete verdicts, zero for the winning team |
| `Rotation` | the generated stage rotation | ten distinct stages whatever the hash; every order drawn by exactly one set of remainders; every stage twice per group; exactly when two consecutive slots share a stage |
| `PointCards`, `Sommes` | Salmon Run point cards | each match and player credited once; cards add up to their credits, and total cards to shift cards |
| `FestVictories`, `FestScoring` | recorded victories and Splatfest scoring | a place is a count, whatever the names, for every record of battles; better never totals less; the winner is maximal |
| `BanIds`, `Bans` | the ban registry and its commands | no banned stream runs; every cancel is handed out once; reloading what was written bans the same players; who is still banned after a ban and its unban, and that it is as if neither had been |
| `Wrappers`, `Valeurs`, `Texte`, `Listes` | shared types, strings, lists | |

## Where the code and its documentation differ

The model follows the code in each of these.

- `fest_equipes.go:186-188` says a failed camp split falls back to the ordinary behaviour, and the "festmelange" switch
  is described as allowing mixed camps; `formMatchLocked` then forms nothing at all (`matchmaking.go:1421-1437`).
- The announced participant count is the room of the requested mode, not the roster. The two differ exactly for a
  tricolour festival mode whose room is for ten (`MatchQueue.CompleteRostersOnly`, `MatchRuns.EightAnnouncedAsTen`); none
  of the modes the source names is one.
- A merge is not idempotent: a null inside a map the record lacks is stored first and deletes on the second application
  (`SaveMerge.IdempotentIff`, `SaveMerge.StoredNullNeedsTwo`).
- Read and insert of the disk fallback of `storeGetDocument` are one step in the model. Taken apart they can lose an
  update for good (`DocumentJournal.SplitFallbackWouldLoseAnUpdate`): exactly when, in between, another content was
  written and a refresh of the same process has consumed its line, and no other write of the name is announced or in
  flight (`DocumentJournal.LatePutLosesIff`).
- `recordPath` flattens a user id character by character, so two texts may name one file (`SaveStore.SameFileIff`,
  `SaveStore.SharedFileMixesRecords`). This concerns that function alone: the ids `saveOwner` lets through are their own
  file names, and their records never mix (`SaveStore.OwnerIsAccepted`, `SaveStore.OwnedRecordIsFoldOfItsWrites`).
- A save that fails after the record was read from disk leaves the merged record in memory
  (`SaveStore.MagasinSauvegardes.Apply`).
- The server's own varint decoder drops the high bits of a tenth byte where the protobuf library refuses it
  (`Protobuf.DecodersAgreeIff`).
- The connection's frame counter skips the first 24 bytes whatever they are; the reader of recordings skips them only if
  they are the preface (`Frames.SkipsBlindly`, `Frames.DifferWithoutPreface`).
- Two rewrites of one message that both add a missing string leave it in the order of the rewrites
  (`SessionRewrite.RewritesCommuteIff`).
- A field update and a field merge do the same thing in `applyWritesToStore`.
- The second slot of a group of five may repeat a stage of the first (`Rotation.NoStageTwiceInARow`,
  `Rotation.SecondSlotMayRepeat`).
- `premierParNom` returns the first number it meets in a Go map. It is the same on every walk exactly when there is at
  most one number it may meet first (`PointCards.SameOnEveryWalkIff`, `PointCards.OrderMayMatter`).
- A credit key joins match and player with a bar. Two players can share a key exactly when one id ends with a bar and
  the other id, and then one of two credits is lost (`PointCards.PlayersClashIff`, `PointCards.BarHidesACredit`). The ids
  come from the body of a session token, which `gamesync.go:1498-1543` decodes without checking their form; a valid
  account id holds no bar.
- A table of victories that holds only zeros gives every camp the first place, although the comment puts such camps
  last (`FestScoring.PlaceCountIff`). Recorded battles never leave one (`FestVictories.RecordedVictories`), so this
  takes a file written by hand (`FestScoring.ZerosWrittenByHand`).
- `cleanBanUID` is not idempotent. The ban command stores a clean id and its unban lifts it
  (`Bans.OperatorEntryIsClean`, `Bans.OperatorUnbanUndoesBan`). Only an id of the account service, or one written into
  the file by hand, may be spelt otherwise after a reload, which bans the same players (`Bans.ReloadGivesBack`,
  `Bans.ReloadBansTheSame`); and only a direct call of the two methods, without the command that cleans its text, may
  fail to lift a ban (`Bans.UnbanUndoesBanIff`).
- The unban command says that new connections are allowed again. A player presents a number and a user id together
  (`ban.go:286-296`), and a ban on the one the operator did not name stays in force: after `ban 5` and `unban 5` player 5
  is still banned if its id was under a ban and the account service was silent (`Bans.OtherBanOnTheIdHolds`,
  `Bans.OtherBanOnTheNumberHolds`). Exactly who is still banned is `Bans.SignedCallerAfterUnban` and
  `Bans.BannedAfterBanAndUnban`.
- A ban whose file could not be written is in force but cuts no stream (`Bans.OneMoreBan`). A new ban on an account number
  replaces the old one, and frees the old one's user id if the account service no longer gives it
  (`Bans.NewBanFreesNobodyIff`).
- A user-session id that returned under another game would keep its rank, which may be taken there
  (`Gamesync.RegistrationKeepsRanksIff`); ids that name one game never do (`Gamesync.RanksStayDistinct`).

## Model

| member | source | states |
|---|---|---|
| `DocumentJournal.StepKeepsInv` | ugcstore_runquery.go:148-215 | every step of any process (memory put, file write, journal append, disk fallback, scan and refresh steps) keeps the coherence invariant of all processes |
| `DocumentJournal.RunKeepsInv` | ugcstore_runquery.go:148-215 | the invariant holds after every interleaved run |
| `DocumentJournal.JournalCoherence` | ugcstore_runquery.go:133-215 | after every run, for each loaded process and each name: memory equals the disk, or the journal names it at or after the process's offset, or a write of it is between its memory put and its append |
| `DocumentJournal.CaughtUpMemoryIsDisk` | ugcstore_runquery.go:133-147 | a loaded process that has consumed the journal, with nothing in flight, has exactly the disk in memory |
| `DocumentJournal.RefreshMakesMemoryEqualDisk` | ugcstore_runquery.go:148-215 | after every run, with no write in flight, one refresh of a loaded process makes its memory equal the disk |
| `DocumentJournal.ListerOk` | ugcstore.go:190-237 | capturing the offset before listing the directory is what makes the start-up scan coherent |
| `DocumentJournal.PutIsARun` | ugcstore.go:95-119 | an uninterrupted put is one of the runs: memory, file, journal line |
| `DocumentJournal.LoadIsARun` | ugcstore.go:190-237 | the start-up scan, its files in any order, is one of the runs |
| `DocumentJournal.RefreshIsARun` | ugcstore_runquery.go:148-215 | the refresh loop is one of the runs |
| `DocumentJournal.LatePutLosesIff` | ugcstore.go:64-93 | after every run, inserting a content read earlier breaks the coherence of memory if and only if another content is on disk, a line for it appended since the read was consumed by a refresh of this process, and no later line or write in flight will tell; such a refresh ended in between |
| `DocumentJournal.LatePutIsSafeWithoutARefresh` | ugcstore.go:64-93 | after every run, whatever any process did since the read, inserting the content read keeps memory coherent unless this process ended a refresh in between |
| `DocumentJournal.SplitFallbackWouldLoseAnUpdate` | ugcstore.go:64-93 | read and insert of the disk fallback taken apart reach a state no later refresh repairs |
| `Texte.FirstDifferenceDecides` | ugcstore_runquery.go:81-83 | the order of names: a text comes before those it begins, and otherwise the first character that differs decides |
| `DocumentStore.WholeLinesAreTheKeys` | ugcstore_runquery.go:176-205 | cutting the journal bytes at the last newline gives exactly the keys announced, whatever unfinished line follows |
| `DocumentStore.JournalAppend` | ugcstore.go:158-170 | appending a key and a newline is appending a name to the journal |
| `DocumentStore.JournalDepuis` | ugcstore_runquery.go:165-180 | a byte offset at a line boundary leaves the journal of the names not consumed |
| `DocumentStore.FichiersApresEcriture` | ugcstore.go:172-187 | writing a document's file keeps the directory in step with the documents, as long as names in use have distinct keys |
| `DocumentStore.RefreshRefinesProtocol` | ugcstore_runquery.go:148-215 | reading whole journal lines by byte offset is the protocol's refresh by line offset, on offset and memory |
| `DocumentStore.QueryAnswersFromDisk` | ugcstore_runquery.go:60-84 | after every run with no write in flight, a query of a loaded process lists exactly the documents on disk under the parent |
| `DocumentStore.UnderParentIff` | ugcstore_runquery.go:43-75 | for every parent and name: the name is under the parent if and only if what follows the first "/documents/" in it continues, after a bar, what follows it in the parent, whatever the tenants; a bar at the end of the parent is ignored, and a text without "/documents/" is compared whole |
| `DocumentStore.QueryFindsEveryTenant` | ugcstore_runquery.go:60-121 | after every run with no write in flight, what a query sends is exactly the documents on disk under the path of its parent, in any tenant, and in the collections it names |
| `DocumentStore.InCollectionIff` | ugcstore_runquery.go:107-114 | the test of a collection is whether its id stands between two bars of the name |
| `DocumentStore.ValidNamesHaveAPath` | ugcstore.go:95-114 | the names a put accepts are exactly those of some tenant and path |
| `DocumentStore.Magasin.RunQuery` | ugcstore_runquery.go:87-121 | exactly the refreshed documents under the parent in a collection asked for, all of them when none is named, newest name first |
| `DocumentStore.Magasin.StoreGetDocument` | ugcstore.go:64-93 | memory first, then the disk, and what the disk gives is kept: the protocol's fallback step |
| `DocumentStore.Magasin.StorePutDocument` | ugcstore.go:95-119 | a valid name is put in memory, on disk and in the journal; another name changes nothing |
| `DocumentStore.Magasin.PersisterDocument` | ugcstore.go:172-187 | the file is replaced and its key announced, nothing else changes |
| `DocumentStore.Magasin.AnnoncerChangementDocument` | ugcstore.go:158-170 | one whole line is appended to the journal |
| `DocumentStore.Magasin.ChargerDocuments` | ugcstore.go:190-237 | the scan runs once, and is the protocol's start-up |
| `DocumentStore.Magasin.LireLesFichiers` | ugcstore.go:215-235 | whatever the order of the files, memory gains exactly the documents on disk |
| `DocumentStore.Magasin.RelireLesNouveauxDocuments` | ugcstore_runquery.go:148-215 | consumes exactly the whole lines from its own offset, re-reads the files they name, and leaves an unfinished line for the next call |
| `DocumentStore.Magasin.DocumentsSousParentEnMemoire` | ugcstore_runquery.go:68-84 | exactly the documents in memory under the parent, each once, newest name first |
| `DocumentStore.Magasin.DocumentsSousParent` | ugcstore_runquery.go:60-63 | the journal is consumed first, so the answer is what a refreshed memory holds |
| `CampSplit.Grouper` | fest_equipes.go:194-199 | each declared camp's waiters, in arrival order, and no other camp |
| `CampSplit.TwoBestSuffice` | fest_equipes.go:207-225 | two different camps can each field n if and only if the two best represented can |
| `CampSplit.FirstTwoAttackers` | fest_equipes.go:152-161 | two attacking camps exist if and only if the sorted list has two, and its first two come before all others |
| `CampSplit.RepartirTricolore` | fest_equipes.go:146-184 | succeeds exactly when the defender has four and two other camps two each; then four, two and two of three different camps, the first attackers by name |
| `CampSplit.RepartirParCamp` | fest_equipes.go:189-258 | with mixing off, succeeds exactly when two different camps can each field half the threshold; then half of each of the two best, as team1 and team2 |
| `CampSplit.AffrontementDistinct` | fest_equipes.go:242-258 | a selection of two camps holds twice the half, everyone was waiting, nobody twice |
| `CampSplit.TricoloreDistinct` | fest_equipes.go:164-184 | a tricolour selection holds eight, everyone was waiting, nobody twice |
| `MatchConfig.ContientApresPrefixe` | matchmaking.go:824-829 | a mode keyword is found in a resolved path exactly when it is in the mode's own name |
| `MatchConfig.CapacityOfPath` | matchmaking.go:761-786 | the room announced from the resolved path is the room of the mode |
| `MatchQueue.DistinctsCount` | matchmaking.go:1336-1352 | the distinct waiters of a mode are its named players, one each, and its nameless waiters |
| `MatchQueue.FewerAfterFilter` | matchmaking.go:1574-1584 | removing waiters never makes a mode fuller, even when duplicates resurface |
| `MatchQueue.SendsFindRoom` | matchmaking.go:1565-1571 | when no slot is taken, no send is dropped |
| `MatchQueue.ServedRoomIsNotFull` | matchmaking.go:1740-1746 | once a room is served, its mode is short of a room again |
| `MatchQueue.StepKeepsInv` | matchmaking.go:1386-1604 | every step keeps conservation, order, one exit and one message |
| `MatchQueue.StepKeepsRest` | matchmaking.go:1736-1770 | every step leaves every ordinary mode short of a full room |
| `MatchQueue.RunKeepsInv` | matchmaking.go:1386-1604 | both hold after every run of enqueue, form, cancel and disconnect |
| `MatchQueue.QueueAtRest` | matchmaking.go:1739-1746 | whenever the lock is free, no ordinary mode holds as many distinct waiters as its room, even with several tickets a player |
| `MatchQueue.OneExitOneMessage` | matchmaking.go:1565-1584 | everyone ever enqueued is still waiting, in order, or left by exactly one exit; the served and the told-cancelled got exactly one message, nobody else any, and no send found its slot taken |
| `MatchQueue.ExitsAreFinal` | matchmaking.go:1937-1966 | an exit never changes afterwards |
| `MatchQueue.AnnulesInscrits` | matchmaking.go:1939-1950 | only waiters once enqueued are ever cancelled |
| `MatchQueue.RosterOf` | matchmaking.go:1386-1445 | a session's players are waiters of its mode, distinct, of distinct accounts, and as many as the mode's session takes |
| `MatchQueue.RunFormsSessions` | matchmaking.go:1386-1490 | every session of every run is complete: one mode, distinct players, the announced count asked for its first player's path |
| `MatchQueue.AnnouncedCount` | matchmaking.go:1452-1462 | the announced count equals the roster if and only if the mode is not tricolour with a room of ten |
| `MatchQueue.CompleteRostersOnly` | matchmaking.go:1386-1490 | over every run of the server, every session has one base configuration, distinct players, and its announced counts equal its size but in that case |
| `MatchQueue.EarliestArrivals` | matchmaking.go:1336-1352 | a waiter of the mode left out either has its account in the roster already or came after everyone taken |
| `MatchRuns.SessionsTakeTheEarliest` | matchmaking.go:1336-1446 | in every run, each session of an ordinary mode fills its room, and anybody of the mode in the queue then has its account in it or was enqueued after everyone in it |
| `MatchRuns.FormedFrom` | matchmaking.go:1386-1490 | every session a step adds is composed from the queue as that step sees it |
| `MatchRuns.EightAnnouncedAsTen` | matchmaking.go:1452-1470 | a concrete run of ten players whose session holds eight and announces ten |
| `MatchRuns.RoomByName` | matchmaking.go:761-786 | the room of a mode by the words of its name: coop four, private ten, each of the five versus words eight, otherwise the setting |
| `MatchRuns.FestivalByName` | fest_equipes.go:102-127 | a festival mode and a tricolour one are told by a word of the name |
| `MatchRuns.SizesByName` | matchmaking.go:761-786 | in every run and whatever the settings, a session of any versus mode has eight players and announces eight, Salmon Run four and four, private ten; any other mode the size set |
| `MatchRuns.FourAgainstFourForm` | fest_equipes.go:189-260 | the arrival that makes eight in a festival mode, four in each of two camps, forms four against four, seated as team1 and team2 |
| `MatchRuns.FourTwoTwoForm` | fest_equipes.go:146-187 | the arrival that makes four defenders and two of each of two other camps forms them, seated as team1, team2 and team3 |
| `Matchmaker.ConclusionRun` | matchmaking.go:1953-1965 | telling every cancelled waiter is one step each and sends each exactly its CANCELLED ticket |
| `Matchmaker.TakeOneOut` | matchmaking.go:1855-1860 | splicing one waiter out leaves the others in place |
| `Matchmaker.Apparieur.WaitersForConfigLocked` | matchmaking.go:1336-1352 | the distinct players of the mode, in arrival order |
| `Matchmaker.Apparieur.ConfigsEnAttenteLocked` | matchmaking.go:1355-1372 | exactly the modes present, each once |
| `Matchmaker.Apparieur.ChoisirJoueurs` | matchmaking.go:1386-1450 | a roster if and only if a complete session of the mode can be formed, and then such a session |
| `Matchmaker.Apparieur.FormMatchLocked` | matchmaking.go:1386-1604 | forms one session if a complete roster is available and changes nothing otherwise |
| `Matchmaker.Apparieur.Distribuer` | matchmaking.go:1565-1571 | every player's ticket goes into its channel unless the slot is taken |
| `Matchmaker.Apparieur.Servir` | matchmaking.go:1565-1584 | tickets out, and exactly the served leave the list, in place |
| `Matchmaker.Apparieur.Rejoindre` | matchmaking.go:1733-1746 | enqueues and forms if the mode is now full, as one step |
| `Matchmaker.Apparieur.Reviser` | matchmaking.go:1755-1770 | the recheck takes one forming step for every mode present |
| `Matchmaker.Apparieur.CancelMatchmakingTicket` | matchmaking.go:1931-1966 | every waiter of the ticket leaves the queue, then each is sent CANCELLED exactly once |
| `Matchmaker.Apparieur.Quitter` | matchmaking.go:1852-1862 | a departed client's waiter leaves the list if it was still there |
| `Matchmaker.Apparieur.Recevoir` | matchmaking.go:1772-1780 | the stream takes the one message of its channel |
| `SaveMerge.NormStoredIdempotent` | cloudsave_nextendo.go:56-75 | storing a stored value changes nothing |
| `SaveMerge.NormStoredHasNoEmptyArray` | cloudsave_nextendo.go:56-75 | a stored value holds no empty array at any depth |
| `SaveMerge.StoredAsIsIff` | cloudsave_nextendo.go:56-75 | storing leaves a value as it is if and only if it holds no empty array at any depth |
| `SaveMerge.StoredAtEveryPath` | cloudsave_nextendo.go:56-75 | for any value, the stored one has exactly the same places through maps and array indices; an empty array reads null there, another array keeps its length, a map its keys, and a leaf its value |
| `SaveMerge.MergeStoresNoEmptyArray` | cloudsave_nextendo.go:91-115 | a record without empty arrays never gains one, whatever the delta |
| `SaveMerge.TwoApplicationsSettle` | cloudsave_nextendo.go:91-115 | for every record and delta, the third application equals the second |
| `SaveMerge.IdempotentIff` | cloudsave_nextendo.go:91-115 | one application is enough if and only if no map of the delta that the record lacks holds a null |
| `SaveMerge.NullFreeIsIdempotent` | cloudsave_nextendo.go:91-115 | a delta without explicit nulls is idempotent |
| `SaveMerge.StoredNullNeedsTwo` | cloudsave_nextendo.go:91-115 | a concrete delta whose second application differs from its first |
| `SaveMerge.DeltasCommuteIff` | cloudsave_nextendo.go:91-115 | two deltas that conflict nowhere give one result in both orders if and only if they agree on the nulls of the maps both bring |
| `SaveMerge.NullFreeDeltasCommute` | cloudsave_nextendo.go:91-115 | null-free deltas that conflict nowhere commute |
| `SaveMerge.UnmentionedPathsUnchanged` | cloudsave_nextendo.go:91-115 | what the delta does not mention, at any depth, reads the same |
| `SaveMerge.WrittenPathsReadBack` | cloudsave_nextendo.go:91-115 | a value the delta gives reads back, normalised |
| `SaveMerge.WrittenValuesAreKept` | cloudsave_nextendo.go:56-115 | a value the delta gives, other than a map or a null, is in the record place by place, empty arrays as null, and is the very value when it holds none |
| `SaveMerge.NullDeletesIff` | cloudsave_nextendo.go:91-115 | where the delta holds a null the record then holds nothing if it had maps all along the path, and a stored null otherwise |
| `SaveMerge.MapsStayMaps` | cloudsave_nextendo.go:91-115 | where the delta holds a map the record then holds one |
| `SaveMergeInPlace.CarteEnMemoire.Fusionner` | cloudsave_nextendo.go:91-115 | in place and in any order of the keys, the record's tree becomes the merge; the delta's tree is untouched and shares no object with it |
| `SaveMergeInPlace.CarteEnMemoire.AppliquerCle` | cloudsave_nextendo.go:98-112 | one key of the delta: recurse, replace or delete |
| `SaveMergeInPlace.CarteEnMemoire.FusionnerBranche` | cloudsave_nextendo.go:103-107 | a map on both sides is merged in place under its key |
| `SaveMergeInPlace.CarteEnMemoire.NormStoredCopie` | cloudsave_nextendo.go:56-75 | a fresh normalised tree that shares nothing with the original |
| `SaveMergeInPlace.AllKeysApplied` | cloudsave_nextendo.go:91-115 | once every key has been applied, in any order, the record is the merge |
| `SaveStore.SameFileIff` | cloudsave_nextendo.go:126-134 | two players share a file exactly when they differ only where both hold an underscore or an unsafe character |
| `SaveStore.RepeatedWriteSettles` | cloudsave_nextendo.go:323-342 | a write repeated for want of an answer changes nothing from the second repetition on |
| `SaveStore.OwnerIsAccepted` | replay.go:1321-1337 | the owner of a record is a valid clean id, the token's own, and names its own file |
| `SaveStore.OwnerIff` | replay.go:1321-1337 | for every account, token and ban: the owner is the token id exactly when that id is valid and clean, the account service gives it for the account, and the account is not banned; nobody otherwise |
| `SaveStore.TagIsKept` | cloudsave_nextendo.go:478-500 | a record keeps a tag it has over any writes that do not name it; one without a tag, or with an empty one, takes the player's |
| `SaveStore.RecordIsFoldOfItsWrites` | cloudsave_nextendo.go:202-342 | over any sequence of writes under any ids, a record is the fold of its own writes, in memory and on disk, if nobody else writes its file |
| `SaveStore.OwnedRecordIsFoldOfItsWrites` | cloudsave_nextendo.go:202-342 | over any sequence of writes of the players let through, every record is the fold of its own writes, in memory and on disk |
| `SaveStore.SharedFileMixesRecords` | cloudsave_nextendo.go:126-134 | the store by itself would mix the records of two ids that share a path |
| `SaveStore.MagasinSauvegardes.LoadLocked` | cloudsave_nextendo.go:202-275 | the record from memory, else from its file, else empty, always with an identifier; errors leave the store as it was |
| `SaveStore.MagasinSauvegardes.Apply` | cloudsave_nextendo.go:323-342 | on success exactly this player's record becomes its merge, in memory and on disk; what each failure leaves |
| `SaveStore.MagasinSauvegardes.PersistLocked` | cloudsave_nextendo.go:283-320 | the file is replaced whole or not at all |
| `Framing.CutAnywhere` | frames_diag.go:144-166 | splitting a then b is splitting them at once, wherever the cut falls |
| `Framing.BlocksRoundTrip` | frames_diag.go:144-166 | written blocks followed by the beginning of another are read back exactly |
| `Framing.StreamConserved` | frames_diag.go:144-166 | the blocks and the remainder, put end to end, are the stream |
| `Frames.CutStream` | frames_diag.go:144-166 | however a stream is cut, the frames noted and the remainder are those of one pass |
| `Frames.RemainderIsBounded` | frames_diag.go:144-166 | what waits is shorter than the largest frame, so the overflow guard never fires |
| `Frames.FramesRoundTrip` | cmd/dumpflux/main.go:27-45 | parsing a serialised frame list gives it back, with what follows it |
| `Frames.RewriteIsTheStream` | cmd/dumpflux/main.go:27-45 | writing the noted frames again gives the stream if and only if every reserved bit was zero |
| `Frames.OneFrameOnTheWire` | frames_diag.go:144-166 | nine bytes and a body: three bytes of length, most significant first, then type, flags and 31 bits of stream; this is the frame noted |
| `Frames.PrefaceText` | frames_diag.go:227-231 | the preface is the client's opening text |
| `Frames.Decouper` | frames_diag.go:144-166 | notes exactly the complete frames of remainder and buffer, and keeps the rest |
| `Frames.OneMoreRead` | frames_diag.go:168-191 | a read adds exactly the frames it completes, the preface being skipped wherever it is cut |
| `Frames.ConnTracee.Read` | frames_diag.go:168-191 | after any sequence of reads, the frames noted and what waits are those of one pass over everything received past 24 bytes |
| `Frames.ConnTracee.Write` | frames_diag.go:193-204 | the same for everything sent |
| `Frames.Trames` | cmd/dumpflux/main.go:27-45 | the one-pass reader finds exactly the frames noted of a recording, without flags |
| `Frames.AgreeAfterPreface` | cmd/dumpflux/main.go:27-45 | on a stream that starts with the preface the two readers agree |
| `Frames.SkipsBlindly` | frames_diag.go:176-186 | on any stream the incremental reader notes what the one-pass reader finds once the first 24 bytes are replaced by the preface |
| `Frames.OnePassWithoutPreface` | cmd/dumpflux/main.go:27-45 | on a stream of any length without a preface, the one-pass list is the frames of the first 24 bytes, then those of what they leave and the rest |
| `Frames.DifferWithoutPreface` | frames_diag.go:176-186 | when those 24 bytes are whole frames, the incremental reader misses exactly them; up to 24 bytes the readers agree if and only if there is no whole frame |
| `Frames.Messages` | cmd/dumpflux/main.go:48-59 | cuts exactly the complete length-prefixed messages |
| `Frames.OneMessageOnTheWire` | cmd/dumpflux/main.go:48-59 | five bytes and a body: a compression byte and four bytes of length, most significant first; this is the message cut |
| `Frames.MessagesRoundTrip` | cmd/dumpflux/main.go:48-59 | messages written one after the other are cut back |
| `Frames.MessagesSurviveTheStream` | cmd/dumpflux/main.go:27-59 | messages sent over one stream, split over frames interleaved with others, are read back from the recording |
| `Protobuf.VarintRoundTrip` | ugc_dessins.go:86-93 | every 64-bit value is read back from its encoding, whatever follows |
| `Protobuf.ReadIff` | session_address_rewrite.go:47-88 | the library reads n bytes if and only if all but the last have their high bit, they are at most ten, and 64 bits hold them; the value is the base-128 number of their low bits |
| `Protobuf.WrittenDigits` | ugc_dessins.go:86-93 | the encoding is the base-128 digits of the number, a high bit on each but the last, and no needless zero |
| `Protobuf.OneHundredFifty` | ugc_dessins.go:86-93 | the example of the encoding specification |
| `Protobuf.LooseReadIs` | ugc_dessins.go:165-181 | whatever the server's decoder reads is the base-128 number of the bytes, reduced to 64 bits |
| `Protobuf.MetVarintUgc` | ugc_dessins.go:86-93 | the shifting loop writes the base-128 encoding |
| `Protobuf.LitVarintUgc` | ugc_dessins.go:165-181 | the accumulating loop, in 64 bits, reads that encoding from any index |
| `Protobuf.DecodersAgreeIff` | ugc_dessins.go:165-181 | the server's decoder and the protobuf library's agree if and only if the tenth byte does not overflow |
| `ProtoMessage.MessageRoundTrip` | session_address_rewrite.go:47-88 | a written run of valid fields is parsed back field by field |
| `ProtoMessage.ValidFieldIff` | session_address_rewrite.go:47-88 | a field is complete if and only if its value is one varint, eight bytes, a length and that many bytes, or four bytes, by its wire type 0, 1, 2 or 5 |
| `ProtoMessage.SpecificationExamples` | session_address_rewrite.go:47-88 | two encoded fields of the encoding specification |
| `ProtoMessage.ReadFieldsAreValid` | session_address_rewrite.go:47-88 | every field parsed is one that can be written again |
| `ProtoMessage.SameBytesSameFields` | session_address_rewrite.go:47-88 | two runs of valid fields have the same bytes if and only if they are the same fields |
| `SessionRewrite.ReecrireChamp` | session_address_rewrite.go:47-88 | the loop over the shrinking slice rewrites every addressed field and copies the others, or fails on a malformed message or an absent field |
| `SessionRewrite.RemplacerChaine` | session_address_rewrite.go:106-143 | the string is replaced wherever it is, or added at the end |
| `SessionRewrite.ReecrireHotePort` | session_address_rewrite.go:147-199 | host and port are each replaced, or added at the end, host first |
| `SessionRewrite.RewriteByLevel` | session_address_rewrite.go:93-103 | a path rewrite succeeds if and only if the message is well formed, every field on the path can be rewritten, and there is one if the path leads on |
| `SessionRewrite.OnlyAddressedFieldsChange` | session_address_rewrite.go:93-103 | exactly the addressed fields change; the others keep value and order, lengths are recomputed and the result parses |
| `SessionRewrite.ReadsBack` | session_address_rewrite.go:93-103 | after a rewrite the path reads the new value and no other |
| `SessionRewrite.OtherPathsReadTheSame` | session_address_rewrite.go:93-103 | every path that does not lead through it reads as before |
| `SessionRewrite.SecondRewriteWins` | session_address_rewrite.go:93-103 | rewriting a path twice is writing only the second value |
| `SessionRewrite.RewriteStaysPossible` | session_address_rewrite.go:93-103 | neither of two separate rewrites spoils the other |
| `SessionRewrite.RewritesCommuteIff` | session_address_rewrite.go:93-143 | two separate rewrites commute if and only if they do not both add a string to the same message |
| `SessionRewrite.SeparateIff` | session_address_rewrite.go:47-88 | paths are separate if and only if neither begins with the other |
| `SessionRewrite.OnlyAddressChanges` | session_address_rewrite.go:147-199 | in a GameSession exactly the hosts and ports change, the missing ones come last, and the result parses |
| `SessionRewrite.AddressReadsBack` | session_address_rewrite.go:147-199 | a rewritten GameSession reads the new host and port, and no other |
| `SessionRewrite.SessionAddressRewritten` | session_address_rewrite.go:39-43 | every GameSession of the answer gets the address, every other field is what it was, and the answer parses |
| `ReplayPatch.EncodersAreRead` | ugc_dessins.go:69-84 | what the three encoders write is parsed back as those fields with those contents |
| `ReplayPatch.PbWalkList` | replay.go:335-356 | the walker lists the leading length-delimited fields, duplicates included, and stops at the first other byte |
| `ReplayPatch.PbWalk` | replay.go:299-320 | the same walk into a table |
| `ReplayPatch.WalkOfAMessage` | replay.go:299-356 | on every well-formed message the walk gives the length-delimited fields it starts with, with their contents, up to the first of another kind |
| `ReplayPatch.TableKeepsTheLast` | replay.go:299-320 | of several fields of one number the last is kept |
| `ReplayPatch.EntriesRoundTrip` | replay.go:322-356 | walking a written list of fields gives it back |
| `ReplayPatch.PatchPayloadVer` | replay.go:368-400 | the loops rebuild the payload from its three fields and its entries |
| `ReplayPatch.PatchedIff` | replay.go:368-400 | a payload is rebuilt if and only if the walker gets through it, its body and every entry of the body |
| `ReplayPatch.VersionValueIs` | replay.go:358-363 | the value put in is a message of one field, number 3, holding the version as an integer |
| `ReplayPatch.VersionKeys` | replay.go:368-400 | the key replaced and the key added are these two texts |
| `ReplayPatch.PatchReadsBack` | replay.go:368-400 | the rebuilt payload walks back to id, body and type, and its body to the rebuilt entries |
| `ReplayPatch.OnlyVersionsChange` | replay.go:368-400 | every entry is what it was but the version's, one is added last, and both carry the new version |
| `Gamesync.KeysAreInjective` | gamesync.go:936-941 | a key of the flat store belongs to one game and one name |
| `Gamesync.SuffixIsOfTheName` | gamesync.go:2835-2839 | a document leaves with a participant exactly when its own name ends with it, whatever the game |
| `Gamesync.LeavesWithIff` | gamesync.go:2835-2839 | the documents that leave are those whose name ends with a bar and the session id |
| `Gamesync.LastWriterWins` | gamesync.go:973-1032 | a field holds what the last write to mention it since the last deletion said, or what it held before |
| `Gamesync.ThereAfterBatchIff` | gamesync.go:973-1032 | after any batch a document is there if and only if the last write that names it is not a deletion, or none names it and it was there |
| `Gamesync.ListedAfterBatchIff` | gamesync.go:973-1071 | so a collection lists a direct member after a batch if and only if that is so; one deleted last is not listed |
| `Gamesync.DirectMemberIff` | gamesync.go:1053-1071 | however many bars end the collection, its members are its name, a bar and one more segment |
| `Gamesync.MemberByPrefix` | gamesync.go:1053-1071 | a key passes the prefix test if and only if it names a direct member in this very game |
| `Gamesync.RegistrationKeepsRanksIff` | gamesync.go:1789-1806 | a registration keeps the ranks of each game distinct if and only if it does not bring back a rank taken there |
| `Gamesync.RanksStayDistinct` | gamesync.go:1789-1806 | over every run of token issues and departures, live sessions of one game have distinct positive ranks, if a session id always names the same game |
| `Gamesync.RanksHaveNoGap` | gamesync.go:1789-1806 | over every run of registrations without departures, the ranks of a game are 1, 2, 3 and so on |
| `Gamesync.ReturningSessionMayClash` | gamesync.go:1791-1793 | two concrete sessions that share a rank without that proviso |
| `Gamesync.MailboxIdsDistinct` | gamesync_boite_pia.go:41-82 | the connection ids of a mailbox are distinct, and none is the console's own |
| `Gamesync.PublishedBlobIsDelivered` | gamesync_boite_pia.go:41-82 | a blob that a batch of writes leaves in a peer's status document is in every other live session's mailbox, with the peer's player, rank and connection id; a peer whose last word is no blob sends nothing |
| `Gamesync.GamesyncServer.ApplyWritesToStore` | gamesync.go:973-1032 | each document of the game becomes what its writes make of it, in order; no other game's document changes |
| `Gamesync.GamesyncServer.DocsSousCollection` | gamesync.go:1053-1071 | exactly the direct members, with their content, under the names the client knows |
| `Gamesync.GamesyncServer.OublierSession` | gamesync.go:2824-2865 | the session and exactly its documents are gone |
| `Gamesync.GamesyncServer.IssueToken` | gamesync.go:1767-1806 | the player's other sessions are gone, those of other players stay, and this one is registered, keeping its rank or taking the next of its game |
| `Gamesync.GamesyncServer.Inscrire` | gamesync.go:1789-1806 | a known session keeps its rank, a new one comes after everyone of its game, no other session changes |
| `Gamesync.GamesyncServer.RangMax` | gamesync.go:1795-1800 | the largest rank of the game, zero if it has none |
| `Gamesync.GamesyncServer.BoitesAuxLettresPia` | gamesync_boite_pia.go:41-82 | exactly the live peers with a published blob, each once, in order, never the console itself |
| `Arbitrage.LastReportWins` | gamesync.go:216-243 | over any sequence of reports, each player's field holds the value of the last report that carried it |
| `Arbitrage.NothingIsForgotten` | gamesync.go:216-243 | no later report makes a player or a field disappear |
| `Arbitrage.ReportedPlayersIff` | gamesync.go:216-243 | a player is in a match's verdict if and only if some report of that match says something of the player |
| `Arbitrage.ScoresAreDoubles` | gamesync.go:362-377 | no integer is left in a report score, and a score without integers is unchanged |
| `Arbitrage.SameNumbersAsDoubles` | gamesync.go:362-377 | at any depth of a score the keys are the same, each integer is the same number as a double, and anything else is untouched |
| `Arbitrage.VersusEntryIsComplete` | gamesync.go:409-470 | a versus entry has every field, keeps what the reports said, and its verdict is never a disconnect |
| `Arbitrage.VerdictOfTheReport` | gamesync.go:454-466 | for every report, winner and server table: a disconnect leaves with 1, else a reported result is kept, else the verdict is 0 if and only if there is a winner and it is the reported team, and 1 otherwise |
| `Arbitrage.MissingFieldsAreFilled` | gamesync.go:444-453 | a field no report gave takes the server's value, or null if optional, and no other field appears |
| `Arbitrage.ServerFieldsAreNeutral` | gamesync.go:285-301 | those server values are zero, false, or an empty name, one of them a double |
| `Arbitrage.AllTwentyThreeFields` | gamesync.go:409-470 | the server's versus entry has every field of the list of 23 |
| `Arbitrage.FieldNamesAreDistinct` | gamesync.go:409-470 | those 23 names are 23 different fields |
| `Arbitrage.VerdictIsNeverADisconnect` | gamesync.go:379-465 | whatever the reports claim, no verdict of 2 leaves the server, and a reported disconnect becomes a defeat |
| `Arbitrage.Rapports.RetenirRapport` | gamesync.go:216-243 | a report merges into its match whatever the order of its entries, and no other match changes |
| `Arbitrage.Rapports.ResultatsIndividuels` | gamesync.go:409-470 | the same players as reported; Salmon Run entries unchanged; versus entries completed, each with the verdict of its report and the winner |
| `Rotation.SlotsAreAligned` | rotation_generee.go:76-92 | the corrections of Go's division number groups and ranks contiguously on both sides of the epoch |
| `Rotation.ShuffleIsPermutation` | rotation_generee.go:82-88 | whatever the hash, the shuffle only reorders |
| `Rotation.DrawnByRemainder` | rotation_generee.go:82-86 | the place drawn receives what the remainder of the hash points at among the places up to it |
| `Rotation.SameOrderIff` | rotation_generee.go:82-86 | on a list without duplicates two hashes give the same order if and only if all their remainders are equal |
| `Rotation.EveryOrderIsDrawn` | rotation_generee.go:82-86 | every order of the list is drawn by some hash |
| `Rotation.BrasserSurPlace` | rotation_generee.go:82-88 | the in-place swaps compute that shuffle |
| `Rotation.MelangeStages` | rotation_generee.go:76-100 | the group's permutation read from the slot's own offset |
| `Rotation.WhereTheDrawsComeFrom` | rotation_generee.go:76-155 | the stages are drawn by the group's number and the rules by the slot's, each with its own salt, and the slot reads its group from ten places further a rank |
| `Rotation.TireStages` | rotation_generee.go:112-141 | the first two stages of the order not excluded, which are then excluded; exclusions are ignored only if too few are left |
| `Rotation.FallbackFills` | rotation_generee.go:124-141 | the fallback keeps what was drawn, adds from the front of the order without repeating, and falls short of two only when the order does |
| `Rotation.NextDraw` | rotation_generee.go:112-141 | successive draws continue one draw and never need the fallback |
| `Rotation.CinqTirages` | rotation_generee.go:195-215 | five draws of two are one draw of ten |
| `Rotation.StagesDuCreneau` | rotation_generee.go:238-248 | a slot's own ten stages are the first ten of its order |
| `Rotation.ReglesDuCreneau` | rotation_generee.go:146-155 | the ranked rules, shuffled by the slot |
| `Rotation.RulesAreShared` | rotation_generee.go:146-155 | the four ranked modes of a slot have four different rules |
| `Rotation.EngendrerPhase` | rotation_generee.go:190-230 | a phase publishes its slot's ten stages, two a mode, avoiding those of the slot before |
| `Rotation.RotationEngendree` | rotation_generee.go:180-234 | twelve phases, each of its own slot, from the slot before the current one |
| `Rotation.TenDistinctStages` | rotation_generee.go:112-141 | for any hash and any slot, the ten published stages are distinct |
| `Rotation.EveryStageTwice` | rotation_generee.go:238-248 | each aligned group of five slots has each of the 25 stages exactly twice |
| `Rotation.InsideAGroup` | rotation_generee.go:180-234 | within a group a slot's own stages avoid those of the slot before, so it publishes just those |
| `Rotation.NoStageTwiceInARow` | rotation_generee.go:180-234 | consecutive slots publish no common stage if and only if the later is not the second of its group, or the first's own stages avoided those of the slot before it |
| `Rotation.SecondSlotMayRepeat` | rotation_generee.go:180-234 | a hash for which slots 0 and 1 share a stage |
| `Rotation.ServerDrawIsGood` | rotation_generee.go:37-40 | the server's stages are 1 to 24 and 26, its rules 1 to 4, without duplicates |
| `PointCards.ServerNamesAreApart` | coop_carte_points.go:144-150 | no two players, and no total and shift card, share a document |
| `PointCards.TotalCardIsTheSum` | coop_carte_points.go:173-246 | over any log of credits, each summed counter of the total card is what it held plus the player's credits |
| `PointCards.ShiftCardIsTheSum` | coop_carte_points.go:173-246 | the same for a shift card and the credits of that shift |
| `PointCards.CardsAgree` | coop_carte_points.go:173-246 | what the total card gained is what the shift cards gained, plus the credits without a shift id |
| `PointCards.JobsAndPoints` | coop_carte_points.go:95-101 | the job count is the number of credits and the points their sum by the rule of two a delivered egg and fifty a completed shift |
| `PointCards.EachCounterHasItsFigure` | coop_carte_points.go:173-246 | which figure of a shift each of the other counters sums |
| `PointCards.WavesAddUp` | coop_carte_points.go:225 | over any log, a shift card's waves are what it held plus the waves of the shift's credits |
| `PointCards.LastCreditIsShown` | coop_carte_points.go:226-232 | over any log, a shift card shows the grade and grade points of the shift's last credit, the shift's id and the version |
| `PointCards.LastTimeIsShown` | coop_carte_points.go:233-235 | and the shift time of the last credit of the shift that brought one |
| `PointCards.LastJobTypeIsShown` | coop_carte_points.go:236-238 | and its job type likewise |
| `PointCards.LimitedPointsAreKept` | coop_carte_points.go:188-198 | over any log a total card keeps its limited points and shows the version |
| `PointCards.BestIsKept` | coop_carte_points.go:173-246 | a shift card keeps the best of its credits and what it held |
| `PointCards.BestDominates` | coop_carte_points.go:173-246 | that best is at least every credit's, and is one of them or what was held |
| `PointCards.KeysClashIff` | coop_carte_points.go:116-125 | two credits share a key if and only if they are the same, or one id ends with a bar and the other and the matches make up for it |
| `PointCards.PlayersClashIff` | coop_carte_points.go:116-125 | two players share a key in some pair of matches if and only if one id ends with a bar and the other |
| `PointCards.KeyTellsMatchAndPlayer` | coop_carte_points.go:116-125 | for any other two players a key tells match and player |
| `PointCards.BarHidesACredit` | coop_carte_points.go:334-348 | two such players lose a credit: matches for which the second is skipped and never credited |
| `PointCards.MarksMeanCreditsIff` | coop_carte_points.go:116-125 | over all logs of a set of players, a mark means a credit if and only if no id of the set ends with a bar and another's |
| `PointCards.CreditedExactlyOnce` | coop_carte_points.go:116-125 | a marked player was credited for that match by exactly one credit, unless the log holds such an id |
| `PointCards.RepeatedVerdictAddsNothing` | coop_carte_points.go:302-350 | a verdict repeated once all its players are credited adds nothing |
| `PointCards.SommerParNom` | coop_carte_points.go:255-273 | the walk sums every field of the name at any depth, in any order of the keys |
| `PointCards.OneOccurrenceMoves` | coop_carte_points.go:255-273 | replacing the value under one occurrence of the name, at any path, moves the sum by exactly the difference |
| `PointCards.NothingToAdd` | coop_carte_points.go:255-273 | a tree where the name is met only over nothing sums to zero |
| `PointCards.PremierParNom` | coop_carte_points.go:276-296 | the walk gives one of the results the iteration order allows |
| `PointCards.WalkFindsWhatIsThere` | coop_carte_points.go:276-296 | the walk may give exactly the numbers it may meet first, and zero exactly when there is none |
| `PointCards.SameOnEveryWalkIff` | coop_carte_points.go:276-296 | every order of the keys gives the same number if and only if there is at most one it may meet first |
| `PointCards.OrderMayMatter` | coop_carte_points.go:276-296 | a concrete tree where it may not |
| `PointCards.CartesDePoints.QuartDejaCredite` | coop_carte_points.go:116-125 | tells whether the key was marked, and marks it |
| `PointCards.CartesDePoints.CrediterCartesDePoints` | coop_carte_points.go:173-246 | exactly the total card and, with a shift id, the shift card change, as one credit |
| `PointCards.CartesDePoints.CrediterJoueur` | coop_carte_points.go:334-348 | a player is credited if and only if it was not for this match |
| `PointCards.CartesDePoints.CrediterQuartCoop` | coop_carte_points.go:302-350 | every named player of the verdict ends credited for the match, by new credits of this verdict only |
| `PointCards.LireCommun` | coop_carte_points.go:302-332 | the shift's common figures with their fallbacks, and the shift id cut at its dash |
| `PointCards.FiguresOfAnEntry` | coop_carte_points.go:334-348 | which names of a player's entry give eggs, power eggs and rescues |
| `PointCards.CutAtTheDash` | coop_carte_points.go:322-327 | a shift id runs up to its first dash, unless it starts with one |
| `PointCards.ShiftOfAVerdict` | coop_carte_points.go:322-332 | only without a shift id does the beginning of the shift time, up to its dash, stand for it |
| `FestScoring.PlacesAvecEgalites` | fest_bareme.go:232-246 | every camp of a tied group takes the group's last place |
| `FestScoring.PlaceIsACount` | fest_bareme.go:232-261 | after sorting and grouping, a place is the number of camps at least as good, less one, so names do not matter |
| `FestScoring.ClassementParParts` | fest_bareme.go:249-261 | largest ratio first, then by name |
| `FestScoring.PlacesDuCritere` | fest_bareme.go:197-230 | places from the battles recorded, or from the vote when none was |
| `FestScoring.MeasuredPlaceIsACount` | fest_bareme.go:197-230 | with battles won, a place counts the camps that won at least as many |
| `FestScoring.PlaceCountIff` | fest_bareme.go:197-230 | for any non-empty table a place is that count if and only if some battle was won or the camp is alone |
| `FestScoring.ZerosWrittenByHand` | fest_bareme.go:204-217 | a concrete table of zeros for which a place is not that count |
| `FestScoring.NoVictoryAtAllIsFirstPlace` | fest_bareme.go:204-217 | a table of zeros puts every camp first |
| `FestVictories.RecordedVictories` | fest_intermede.go:99-171 | for every sequence of battles, a camp's entry is its battles won, the total is the battles counted, and the table is empty exactly when there was none |
| `FestVictories.VictoriesAreBattlesWon` | fest_intermede.go:99-171 | a camp's recorded victories are the number of battles of that festival, and mode, whose winner it was |
| `FestVictories.RecordedPlaceIsACount` | fest_bareme.go:197-230 | for every sequence of battles, a place counts the camps that won at least as many, or, when none was fought, those the vote put at least as high |
| `FestVictories.VictoiresFest.EnregistrerVictoireDeFete` | fest_intermede.go:99-131 | a verdict adds one victory to its camp, for the festival and for the mode, and changes no other table |
| `FestVictories.VictoiresFest.VictoiresDuMode` | fest_intermede.go:152-171 | the table of one mode is what its battles recorded |
| `FestScoring.ClassementsDeLaFete` | fest_bareme.go:138-160 | every camp's total is the sum of its points over the five criteria |
| `FestScoring.TotalIsTheScale` | fest_bareme.go:54-64 | a total with no sorting in it: five counts of the camps that do at least as well, each paying its full price alone, half to two, nothing to more |
| `FestScoring.LastOfThreeTotalsNothing` | fest_bareme.go:54-64 | a camp behind two others in the vote and in every measure with battles totals 0 |
| `FestScoring.FirstEverywhereTotalsAll` | fest_bareme.go:54-64 | a camp ahead everywhere totals 580, the most there is |
| `FestScoring.SharesOfVictories` | fest_bareme.go:197-217 | a measured share times all the battles is the battles the camp won |
| `FestScoring.BetterNeverTotalsLess` | fest_bareme.go:138-160 | a camp at least as good on every measure never totals less; camps equal everywhere total the same |
| `FestScoring.ClassementParPoints` | fest_bareme.go:319-331 | largest total first, then by name |
| `FestScoring.Vainqueur` | fest_bareme.go:273-281 | the camp announced first has the largest total, and the first name of those that share it |
| `BanIds.ValidIsCleanOnce` | ban.go:86-110 | a valid id is clean and valid once cleaned |
| `BanIds.SpellingsOfOneId` | ban.go:86-97 | an id given as a path, a file name, with or without prefix, with blanks around it, is cleaned to the one id |
| `BanIds.ValidIffShort` | ban.go:99-110 | a prefixed id of safe characters is valid if and only if it has at most 128 |
| `BanIds.EdgesOfTheRanges` | ban.go:99-110 | where the safe and the blank characters end |
| `BanIds.NumberRoundTrip` | ban.go:492-498 | a number written in decimal is read back if and only if 64 bits hold it |
| `BanIds.CleaningOnceMayNotBeEnough` | ban.go:86-97 | a concrete id whose cleaning changes it twice |
| `Bans.ServerRulesAreGood` | ban.go:86-110 | the server's cleaning meets what the registry needs of it |
| `Bans.RunKeepsInv` | ban.go:147-419 | over every run of reload, ban, unban, track and untrack, the table is keyed and valid and every stream is accounted for |
| `Bans.NoBannedStreamRuns` | ban.go:147-419 | no tracked stream matches a current ban at any point of a run with no unwritten ban since the start or since a reload or written ban |
| `Bans.OneFateEach` | ban.go:208-217 | each tracked stream is live, or was cut and its cancel handed out once, or ended by itself, exactly one of them |
| `Bans.CutExactly` | ban.go:208-217 | a cut takes exactly the streams a current ban matches |
| `Bans.TrackedUnlessAnonymous` | ban.go:345-358 | a stream is tracked under the next number unless it shows neither a number nor an id |
| `Bans.OneMoreBan` | ban.go:375-384 | an unwritten ban leaves the registry sound if and only if no tracked stream matches it |
| `Bans.NewBanFreesNobodyIff` | ban.go:375-380 | a new ban leaves everyone banned who was, unless it replaces the only ban on another user id |
| `Bans.ReloadGivesBack` | ban.go:147-206 | reloading a written table gives it back if and only if every id in it is clean |
| `Bans.ReloadBansTheSame` | ban.go:147-206 | either way the reloaded table bans exactly the same players |
| `Bans.ReloadFollowsTheFile` | ban.go:147-206 | a registry in step with the file it knows, or just started, is after a successful reload in step with the file there is, one taken away included, as long as new contents come under a new date or size |
| `Bans.CleanedIdsMatchTheSame` | ban.go:241-252 | a stream tracked under its cleaned ids is cut by the same bans, when cleaning each once was enough |
| `Bans.AcceptedTarget` | ban.go:492-507 | an accepted text is a positive 64-bit number, or an id that is valid and clean once cleaned |
| `Bans.NumberTargets` | ban.go:492-501 | a decimal number with blanks around it names that account; zero and numbers over 64 bits are refused |
| `Bans.OtherTargets` | ban.go:502-507 | any other text names the id it cleans to, if valid |
| `Bans.EntryAcceptedIff` | ban.go:185-191 | an entry is accepted if and only if it names a number or an id, and any id it names is valid |
| `Bans.OperatorEntryIsClean` | ban.go:549-576 | the entry the ban command stores for an id is clean, so a reload gives it back as it is |
| `Bans.SameTargetIsLifted` | ban.go:549-601 | the ban command's entry bears on every caller that presents the number or the id its text names, whatever else it presents, and the unban of that text lifts it, reloaded or not |
| `Bans.AccountIdIsBannedToo` | ban.go:549-576 | banning a number bans the id the account service gives for it too, under any number |
| `Bans.OperatorUnbanUndoesBan` | ban.go:549-601 | for every accepted text, ban bans every caller that presents the number or the id named, whatever else it presents; unban in another process lifts that ban and leaves the table that unban alone would have left, its ids cleaned |
| `Bans.BannedAfterBanAndUnban` | ban.go:549-601 | once both commands have run and the server has reloaded, any caller is banned if and only if an entry of the table the unban re-read, or as well of the table before the ban, bears on it and is on neither the number nor the cleaned id of the target; so nobody who was not banned before, and nobody who presents the target alone |
| `Bans.SignedCallerAfterUnban` | ban.go:286-296 | a caller with its number and its id: after unbanning the number it is banned if and only if another ban is on its id, after unbanning the id if and only if its number is banned under another id |
| `Bans.OtherBanOnTheIdHolds` | ban.go:549-601 | a table with a ban on an id: after `ban 5` with the account service silent and `unban 5`, the player of that number and id is still banned |
| `Bans.OtherBanOnTheNumberHolds` | ban.go:549-601 | a table with a ban on a number: after ban and unban of an id, the player of that number and id is still banned |
| `Bans.UnbanFrees` | ban.go:393-419 | for any number and ids presented: banned after the unban if and only if a ban on neither the target's number nor its cleaned id bears on them; none does on the target alone, however its id is spelt |
| `Bans.UnbanUndoesBanIff` | ban.go:366-419 | for direct calls of the two methods with one text, the ban is lifted if and only if one cleaning was enough |
| `Bans.Registre.MatchingLocked` | ban.go:135-142 | tells whether some current ban matches |
| `Bans.Registre.CancellationsForCurrentBansLocked` | ban.go:208-217 | cuts exactly the streams a current ban matches and hands out their cancels |
| `Bans.Registre.Refresh` | ban.go:147-206 | nothing if the file has not moved, an empty table if it is gone, its entries and a cut otherwise; a bad file changes nothing |
| `Bans.Registre.LireEntrees` | ban.go:185-194 | the table of the file's entries, refused if one is not valid |
| `Bans.Registre.PersistLocked` | ban.go:440-490 | the file holds a listing of the current table and the registry knows it; on failure the file is as it was, or, if only the last stat failed, replaced without the registry knowing |
| `Bans.Registre.BanLocked` | ban.go:375-388 | the written ban is a step that cuts, the unwritten one a step that does not |
| `Bans.Registre.BanEntry` | ban.go:366-389 | invalid entries and failed reloads change nothing; otherwise reload, then ban |
| `Bans.Registre.UnbanLocked` | ban.go:402-419 | exactly the bans on the account number or the id are lifted, and written if there were any |
| `Bans.Registre.UnbanTarget` | ban.go:393-419 | refused without a number or a valid id; otherwise reload, then lift |
| `Bans.Registre.CommandeBan` | ban.go:549-576 | refused texts change nothing; a successful command puts the cleaned entry in the reloaded table and in the file |
| `Bans.Registre.CommandeUnban` | ban.go:577-601 | a successful command leaves the reloaded table without the target's bans, and says whether there were any |
| `Bans.Registre.CleanedUIDs` | ban.go:241-252 | each id cleaned, empty and repeated ones dropped |
| `Bans.Registre.TrackLocked` | ban.go:345-358 | a stream is tracked under a new id if and only if no ban matches it; an anonymous one is let through untracked |
| `Bans.Registre.Oublier` | ban.go:359-363 | the stream is no longer tracked, whether or not it had been cut |

## Left out

- Plumbing: gRPC, TLS, HTTP handlers, tokens and signatures, dashboards, logging, clocks, GeoIP and command lines.
- Hashes: the splitmix hash of the rotation is a parameter; document keys and hash tags are parameters, and the names in
  use are taken to have distinct document keys.
- The document store: deletions by `CommitDocuments` (memory only), crashes, file errors and partial appends; a file is
  read or replaced in one step, and the disk fallback of `storeGetDocument` is one step.
- Hot switches (mixing, tricolour pattern, defending camp, default match size) are fixed over a run; a negative default
  match size is not modelled. `campDuTicket` is a field of the waiter.
- One waiter is one identity: two streams of one ticket are two waiters that share the ticket object only by its name.
- Frames.DifferWithoutPreface: without a preface, on a stream of more than 24 bytes whose first 24 end inside a frame,
  no condition is given for the two readers to agree; `Frames.OnePassWithoutPreface` says what each of them finds.
- Group fields (wire types 3 and 4) are refused by the model of the protobuf field reader.
- Byte strings are shorter than 2^64; the parsing laws of rewritten messages ask for it where Go's slices guarantee it.
- `pbWalkList` and `pbWalk` give no result where Go would slice past the message.
- Integers of counters and points are unbounded, and ratios and scores are reals.
- Arrays inside a save are values in the in-place merge; maps are objects. The merge's update time is left out.
- Saves and bans on disk are the values written; their protobuf and JSON encodings are assumed to be read back.
- In the game documents, sharing of maps between the store and a reader is left out, and a transform's value is an input.
- `IssueToken` is one call when nothing comes in between; its two holds of the lock are separate steps of the runs.
- Reading and writing the file of recorded victories; a battle is counted each time it is handed in.
- The order of streams in `KeepUserSession`, and the referee's choice of a winner, which is an input of the verdict.
- Ban dates, reasons and the order of a listing carry no law; a file's date and size are one mark, and the throttle of
  reloads is left out.

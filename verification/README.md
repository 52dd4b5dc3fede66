# Tournament platform: verified model

A Dafny model of the parts of a tournament platform that are easiest to get wrong: the bracket
generator, the wallet ledger, the idempotency keys, the life of matches and tournaments with their
registration, and the ownership of teams. Every operation is a method on the entity or repository it
belongs to, proved to do what a specification function says; the properties are lemmas about those
functions, for all inputs and all runs.

| files | what they cover |
|---|---|
| common, powers | shared values; powers of two and the integer meaning of `Math.ceil(Math.log2(n))` |
| shuffle, seeding | the Fisher-Yates shuffle and the seeded order |
| bracket_shape, bracket_generator | the closed form of a bracket, and the generator that builds it with its loops and links |
| bracket_tree, bracket_rounds, bracket_first_round | the tree, the counts, round 1 as a partition, byes |
| bracket_play, bracket_champion, bracket_meeting, bracket_reach | playing the bracket in any order, the champion, where two participants can meet and that they can |
| bracket_start, bracket_validation | what each match carries and which can be started; `validateBracket` |
| match, match_laws, match_history | the match entity, as an automaton, and its runs |
| ledger, ledger_laws, ledger_payouts, ledger_webhooks, ledger_answers, wallet_entities | the money: use cases in one step each, conservation, payouts, replays, and what each request is answered |
| deposit_lock, deposit_races | the deposit webhook in micro-steps, with and without the per-wallet lock |
| wallet_races | deposits, with or without a lock manager, against approvals under the row lock |
| idempotency, idempotency_laws | the idempotency service with transactions and row locks, and races for one key |
| tournament, registration, registration_laws, registration_answers | the tournament entity, its use cases, their runs and their answers |
| registration_races, registration_outcomes | registrations interleaved move by move, and exactly how they can end |
| platform | registration and ledger in one run |
| teams, team_laws, team_answers | team membership, ownership, provenance of admins, and when each step succeeds |

## How to read it

* Identifiers are numbers, since they are only compared. Money is integer cents. Times are integers.
* What comes from outside is a parameter: random draws, fresh ids, the current time, the answers of
  payment gateway and payout service, whether a lock can be had, whether a user, a game or a game
  profile exists.
* An error is a value (`Failed`, `Err`) and the contract says what state it leaves behind.
* A generated bracket is described by `IsBracket`, which gives every match of the list; the tree, the
  counts and the play are proved from that and from the stored links alone (`NextOf` looks the id up).
* Playing a bracket: nothing in the repository pushes winners yet; the meaning of `nextMatchId` is
  taken from its documentation, and a winner takes the first free slot of the next match.
* Idempotency: a statement that meets a locked row answers `Blocked` and changes nothing; the caller
  can make it again. Operations act on each key alone, so the laws follow one row and its history.

## Where the code differs from its own words

* Byes are meant to be confirmed; the generator's last argument lands in the second proof field
  (`BracketFirstRound.ByesAreNotConfirmed`).
* Byes and pairing are said to follow standard seeding; the first two of the order are kept apart until
  the final only for up to four participants (`BracketMeeting.TopTwoMeetInFinalIff`).
* The deposit webhook does not check the type of the transaction it names
  (`LedgerLaws.WithdrawalCanBeCredited`; `LedgerLaws.ConservedIff` gives the exact condition).
* A deposit can be credited twice, with the lock or without, whenever two webhooks pass the checks
  (`DepositRaces.DoubleCreditIff`). There are two causes, and no others: the status check stands outside
  the lock, and the balance and the status are two writes that no transaction joins
  (`DepositRaces.DoubleCreditHasACause`).
* Without a lock manager, the default, an update can be lost (`DepositRaces.LostUpdateIff`,
  `WalletRaces.LostDepositIff`); with one or without, a debit can be lost to a deposit, because approvals
  use a row lock instead (`WalletRaces.LostDebitIff`).
* The approval of a withdrawal is to be atomic, but the payout is outside its database transaction: a
  write or commit that fails afterwards is rolled back and the payout is not, so the next approval pays
  again (`LedgerPayouts.PaidTwiceIff`, `LedgerPayouts.RepeatedPayoutHasACause`). Interleaved approvals can
  do the same without any failure, since the status is read without a lock
  (`WalletRaces.PayoutCountsWithoutFailure`).
* A request to withdraw under a key that a finished transaction has, even another user's, succeeds with
  that transaction and creates none (`LedgerWebhooks.ForeignWithdrawalIff`).
* Registering writes fee, row and count one after the other without a transaction, so a fee can be taken
  for nothing and the counter can fall behind (`RegistrationLaws.RegistrationIsWholeIff`,
  `RegistrationLaws.CounterAgreesIff`); and it checks room and duplicates before it writes, so interleaved
  registrations can seat a user twice and overfill a tournament (`RegistrationOutcomes.RowsOfUserIff`,
  `RegistrationOutcomes.OverfillIff`).
* `resolveDispute` accepts any winner, and `setParticipants` any match
  (`MatchHistory.StrangerCanWin`, `MatchHistory.WinnerCanBeUnseated`; exactly when:
  `MatchHistory.WinnerSeatedUnless`).
* Completing a tournament before its start date stores an end date that the entity's constructor
  refuses, so the record can never be loaded again (`RegistrationLaws.CompletionLoadsIff`).
* A retried withdrawal request is compared with a status `APPROVED` that transactions do not have.
* The approval of withdrawals logs through a name it does not import; the model treats logging as
  having no effect.
* `registerForTournament` and the administration use cases call `debit` on the wallet repository and
  `update` on the tournament repository, which the repositories do not define; the model gives them
  their evident meaning, and gives participant rows the meaning their callers rely on.

## Model

| member | source | states |
|---|---|---|
| Powers.CeilLog2 | src/domain/tournament/bracket.logic.js:83-84 | the least r with 2^r >= n: 2^r covers n and, unless r is 0, 2^(r-1) does not |
| Shuffle.ShuffleArray | src/domain/tournament/bracket.logic.js:209-216 | for every list of draws the loop turns a copy of its input into the permutation those draws select and leaves the input alone |
| Shuffle.ShuffledIsPermutation | src/domain/tournament/bracket.logic.js:209-216 | every list of draws yields a permutation, repeated elements included |
| Shuffle.DrawsAreUnique | src/domain/tournament/bracket.logic.js:209-216 | different draws give different results on distinct elements |
| Shuffle.DrawsFor | src/domain/tournament/bracket.logic.js:209-216 | a list of draws can be computed for every permutation of distinct elements |
| Shuffle.ShuffleIsBijection | src/domain/tournament/bracket.logic.js:209-216 | on distinct elements the permutations are exactly the results of the shuffle, each from exactly one list of draws |
| Seeding.SortBySeed | src/domain/tournament/bracket.logic.js:74-75 | the result is sorted by seed and a permutation of the input |
| Seeding.SortIsStable | src/domain/tournament/bracket.logic.js:74-75 | participants with equal seeds keep their order |
| Seeding.SeedOrderIsPermutation | src/domain/tournament/bracket.logic.js:70-79 | whichever way the order is found, nobody is lost or duplicated, and it is by seed when all have seeds |
| Seeding.UnseededOrderIff | src/domain/tournament/bracket.logic.js:70-79 | without a full set of seeds the order is the one given, unless the shuffle is wanted; then exactly the permutations are possible |
| BracketGenerator.OrderParticipants | src/domain/tournament/bracket.logic.js:70-79 | seeds decide when all have one; otherwise the shuffle, if wanted; otherwise the order given |
| BracketGenerator.FindById | src/domain/tournament/bracket.logic.js:182-187 | finds a match with the id exactly when there is one |
| BracketGenerator.Link | src/domain/tournament/bracket.logic.js:182-183 | only the match with that id, unique in the list, gets the link |
| BracketGenerator.ByeMatches | src/domain/tournament/bracket.logic.js:101-125 | the first 2^r - n of the order each get a finished match of their own, numbered from 1 |
| BracketGenerator.FirstRoundMatches | src/domain/tournament/bracket.logic.js:82-146 | round 1 has 2^(r-1) matches: the byes, then the rest paired from both ends |
| BracketGenerator.LinkPrevious | src/domain/tournament/bracket.logic.js:181-188 | one link is set and every other match of the list stays as it is |
| BracketGenerator.LinkPair | src/domain/tournament/bracket.logic.js:180-188 | both feeders, when they exist, learn the new match, and nothing else changes |
| BracketGenerator.NextMatch | src/domain/tournament/bracket.logic.js:165-177 | the new match carries its round, its number, its time and no participants |
| BracketGenerator.NextPairing | src/domain/tournament/bracket.logic.js:164-189 | one pass of the inner loop appends one match and links two |
| BracketGenerator.NextRoundMatches | src/domain/tournament/bracket.logic.js:161-190 | half as many matches as before, all of the previous round linked to them |
| BracketGenerator.AppendRound | src/domain/tournament/bracket.logic.js:155-198 | a pass of the outer loop leaves the list made of complete rounds, linked up to the last |
| BracketGenerator.LaterRounds | src/domain/tournament/bracket.logic.js:155-198 | the loop ends with one match after exactly ceil(log2 n) rounds, so the safety break is dead code |
| BracketGenerator.GenerateSingleElimination | src/domain/tournament/bracket.logic.js:63-201 | fewer than two participants are refused; otherwise fresh matches form the bracket of the seeded order, match by match |
| BracketTree.RoundsAreNumbered | src/domain/tournament/bracket.logic.js:155-178 | matches and pairs (round k, number 1 to 2^(r-k)) correspond one to one, and there are 2^r - 1 of them |
| BracketTree.IdsAreDistinct | src/domain/tournament/bracket.logic.js:165 | no two matches share an id |
| BracketTree.LinkIsParent | src/domain/tournament/bracket.logic.js:180-188 | match x links to match h + x/2, where h is half the slots, and only the last match links nowhere |
| BracketTree.FedByTwo | src/domain/tournament/bracket.logic.js:164-188 | match j of a later round is fed by exactly the matches 2j - 1 and 2j of the round before |
| BracketRounds.ParentIsNextRound | src/domain/tournament/bracket.logic.js:155-188 | every link leads one round up |
| BracketRounds.ScheduledAfterFeeders | src/domain/tournament/bracket.logic.js:165-177 | a match is scheduled exactly one gap after the matches that lead to it |
| BracketRounds.OnlyTheFinalIsInTheLastRound | src/domain/tournament/bracket.logic.js:155-198 | round r has one match, the last of the list |
| BracketRounds.LinksReachTheFinal | src/domain/tournament/bracket.logic.js:155-198 | from any match, following d links climbs d rounds and reaches the final exactly when d >= r - round |
| BracketRounds.EntrantsOfRow | src/domain/tournament/bracket.logic.js:101-144 | who is seated where: bye holders alone, the others in pairs, nobody in later rounds |
| BracketRounds.BracketCounts | src/domain/tournament/bracket.logic.js:82-144 | byes are fewer than half the slots, an even number of at least two is left to play, and exactly n - 1 of the 2^r - 1 matches are played |
| BracketRounds.FirstRoundIsPartition | src/domain/tournament/bracket.logic.js:101-144 | an id fills as many first-round slots as it has entries in the order, and no later match has entrants |
| BracketFirstRound.EntriesOfPermutation | src/domain/tournament/bracket.logic.js:74-79 | how often an id occurs does not depend on the order |
| BracketFirstRound.EverybodySitsOnce | src/domain/tournament/bracket.logic.js:70-144 | with distinct ids every participant of the input fills exactly one slot of round 1, nobody else fills any, and no match holds one participant twice |
| BracketFirstRound.ByesGoToTheBestSeeds | src/domain/tournament/bracket.logic.js:74-125 | when all have seeds, the seed of every bye holder is at most that of everybody without a bye |
| BracketFirstRound.ByesAreNotConfirmed | src/domain/tournament/bracket.logic.js:110-124 | a generated bye has its holder as winner, but is not confirmed: the last argument of the call lands in the second proof field |
| BracketStart.StartableIff | src/domain/tournament/bracket.logic.js:104-177 | exactly the matches that are no byes can be started, those of later rounds included |
| BracketStart.NothingReported | src/domain/tournament/bracket.logic.js:104-177 | no match has types, scores or a confirmation; exactly the byes have a winner and something in the second proof field |
| BracketStart.EarlierSitsFirst | src/domain/tournament/bracket.logic.js:93-142 | who sits in which seat: byes first and alone, then pairs from both ends, the earlier of the order always first |
| BracketStart.MatchesOfTheCall | src/domain/tournament/bracket.logic.js:63-177 | every match carries the tournament of the call and its time: the default one, plus the gap (an hour if not given) for every later round |
| BracketPlay.KickoffInvariant | src/domain/tournament/bracket.logic.js:101-198 | a generated bracket starts in a state that meets the invariant |
| BracketPlay.MoveKeepsSound | src/domain/tournament/match.entity.js:22 | deciding any playable match keeps later matches filled with exactly the winners of their feeders, and keeps a match from being decided before its feeders |
| BracketPlay.MoveConserves | src/domain/tournament/match.entity.js:22 | a decision loses nobody: seats in open matches, defeats and the title always add up to the seats of round 1, for every id |
| BracketPlay.MoveSeatsNobodyTwice | src/domain/tournament/match.entity.js:22 | no match ever seats anybody against themselves |
| BracketPlay.RunsKeepInvariant | src/domain/tournament/match.entity.js:22 | all of this in every state that any sequence of decisions reaches, whatever the order and the winners |
| BracketChampion.DecidedMatchHadTwo | src/domain/tournament/bracket.logic.js:63-201 | every decided match of a later round had exactly two distinct entrants, one of whom won |
| BracketChampion.FinalComesLast | src/domain/tournament/bracket.logic.js:155-198 | once the final is decided, every match is |
| BracketChampion.OneChampion | src/domain/tournament/bracket.logic.js:63-201 | when the final is decided there is one champion, a participant without a defeat; every other participant has lost exactly once, and nobody else ever |
| BracketChampion.AliveOrBeaten | src/domain/tournament/bracket.logic.js:63-201 | at every moment each participant is beaten once, or champion, or seated in exactly one open match |
| BracketChampion.StuckOnlyAtTheEnd | src/domain/tournament/bracket.logic.js:63-201 | a decision is possible exactly as long as the final is undecided |
| BracketChampion.RunsEnd | src/domain/tournament/bracket.logic.js:63-201 | every run ends within one decision per match, and has its champion exactly when it made them all |
| BracketMeeting.FirstCommon | src/domain/tournament/bracket.logic.js:164-188 | two paths that ever meet have a first common match and share everything after it |
| BracketMeeting.HomeIsUnique | src/domain/tournament/bracket.logic.js:101-144 | a participant sits in one first-round match only |
| BracketMeeting.SeatsLieOnPath | src/domain/tournament/bracket.logic.js:155-198 | nobody is ever seated off the path from their first-round match to the final |
| BracketMeeting.OnePlaceToMeet | src/domain/tournament/bracket.logic.js:128-190 | the paths of two participants have a first common match, and in no reachable state are the two seated together anywhere else |
| BracketReach.PlayInOrder | src/domain/tournament/bracket.logic.js:63-201 | the matches can be decided in the order of the list, up to any of them, with two given participants winning all they play against others |
| BracketReach.FavouriteArrives | src/domain/tournament/bracket.logic.js:155-188 | who wins every match before the meeting place is seated at each step of the path up to it |
| BracketReach.TheyCanMeet | src/domain/tournament/bracket.logic.js:128-190 | for any two participants some run seats both in the first common match of their paths |
| BracketMeeting.NeighboursShareRoundTwo | src/domain/tournament/bracket.logic.js:101-188 | with three or more participants the first two of the order sit in neighbouring matches whose winners meet in round 2 |
| BracketMeeting.TopTwoMeetInFinalIff | src/domain/tournament/bracket.logic.js:87-89 | the only meeting place of the first two of the order is the final exactly when there are at most four participants |
| BracketMeeting.FiveAreNotKeptApart | src/domain/tournament/bracket.logic.js:128-190 | five participants in the order given: the first two meet one round before the final |
| BracketValidation.ValidateBracket | src/domain/tournament/bracket.logic.js:225-264 | only an empty list can be rejected; each warning is given exactly when its count is off |
| BracketValidation.GeneratedBracketPasses | src/domain/tournament/bracket.logic.js:228-258 | a generated bracket triggers neither warning |
| Matches.Match.constructor | src/domain/tournament/match.entity.js:32-104 | every argument ends up in the field of its position |
| Matches.Match.StartMatch | src/domain/tournament/match.entity.js:146-159 | only a SCHEDULED match starts; a refusal changes nothing |
| Matches.Match.RecordResult | src/domain/tournament/match.entity.js:169-193 | only a match being played takes a result, only from one of its participants, and the result awaits confirmation |
| Matches.Match.ConfirmResult | src/domain/tournament/match.entity.js:195-207 | only a result that awaits confirmation or is disputed can be confirmed |
| Matches.Match.DisputeResult | src/domain/tournament/match.entity.js:209-219 | a dispute needs a result, a reporter and a reason, and withdraws the confirmation |
| Matches.Match.ResolveDispute | src/domain/tournament/match.entity.js:221-237 | only a DISPUTED match is resolved; winner and status are taken as given |
| Matches.Match.SetParticipants | src/domain/tournament/match.entity.js:239-275 | one participant makes a waiting match a bye, two reopen a bye, none make it PENDING |
| Matches.Match.SetAsBye | src/domain/tournament/match.entity.js:277-312 | the winner keeps its slot or gets the first, the other slot is emptied, and the match is a confirmed BYE |
| Matches.Match.CancelMatch | src/domain/tournament/match.entity.js:314-321 | everything but a COMPLETED or CANCELED match can be canceled |
| MatchHistory.FlagsKeptUnless | src/domain/tournament/match.entity.js:137-321 | confirmation flag and status stop agreeing in exactly two cases: a dispute resolved into an unconfirmed status, and a raw status update that contradicts the flag |
| MatchHistory.FlagsAgreeOnEveryRun | src/domain/tournament/match.entity.js:169-321 | on every run of guarded operations COMPLETED implies confirmed, and AWAITING_CONFIRMATION and DISPUTED imply unconfirmed |
| MatchHistory.CompletedHasRecordedResult | src/domain/tournament/match.entity.js:169-321 | a run from a match without a result to one with a result contains a successful recordResult |
| MatchHistory.CompletionNeedsRecordIff | src/domain/tournament/match.entity.js:169-321 | completion without a recordResult in the run is possible exactly from AWAITING_CONFIRMATION, DISPUTED and COMPLETED |
| MatchHistory.ConfirmedAsRecorded | src/domain/tournament/match.entity.js:169-207 | a result that is recorded and confirmed stands as reported: winner, scores, and proofs replaced only where given |
| MatchHistory.WinnerTypedUnless | src/domain/tournament/match.entity.js:169-312 | the winner's type stops being that of the winner's slot in exactly two kinds of call: a bye given under another type, and new seats that type the bye's or the old winner differently |
| MatchHistory.WinnerSeatedUnless | src/domain/tournament/match.entity.js:221-275 | the winner stops being one of the two participants in exactly two kinds of call: a dispute resolved for somebody else, and new seats without the winner that do not make the match a bye |
| MatchHistory.WinnerCanBeUnseated | src/domain/tournament/match.entity.js:239-275 | the seats of any finished and confirmed match with a winner can be given to two others, and the old winner stays |
| MatchHistory.StrangerCanWin | src/domain/tournament/match.entity.js:221-237 | a concrete dispute whose resolution confirms a winner who never played |
| MatchLaws.AutomatonIff | src/domain/tournament/match.entity.js:137-321 | every operation goes through in exactly the listed situations, leads exactly to the listed status, and changes nothing when it is refused |
| MatchLaws.OnlyTheseChange | src/domain/tournament/match.entity.js:137-321 | which operations can change seats, report, winner and confirmation; place, time and link are changed by none |
| MatchLaws.RunsKeepIdentity | src/domain/tournament/match.entity.js:137-321 | on every run a match keeps its id, tournament, round, number, time and link |
| MatchLaws.RecordedAsReported | src/domain/tournament/match.entity.js:169-193 | winner, scores and proofs are stored each in its own field, and the result is unconfirmed |
| MatchLaws.VerdictsSetTheFlag | src/domain/tournament/match.entity.js:146-237 | confirming, disputing and resolving set the flag and nothing that is not asked for; starting and canceling change the status alone |
| MatchLaws.ByeSeatsTheWinner | src/domain/tournament/match.entity.js:277-312 | a bye seats its winner alone, in the seat the winner had or the first |
| MatchLaws.SeatsAsGiven | src/domain/tournament/match.entity.js:239-275 | new seats are taken as given; a waiting match with one participant is won by that one and confirmed |
| MatchLaws.InProgressWasStarted | src/domain/tournament/match.entity.js:146-321 | on every run of guarded operations a match that came to be in progress was started in it, when it was SCHEDULED |
| Ledger.FindByKey | src/infrastructure/database/repositories/postgres.transaction.repository.js:38-52 | finds a transaction with the key exactly when there is one |
| Ledger.Repositories.Create | src/infrastructure/database/repositories/postgres.transaction.repository.js:146-176 | a used idempotency key returns the existing transaction and stores nothing |
| Ledger.Repositories.InitializeDeposit | src/application/use-cases/wallet/initialize-deposit.usecase.js:33-147 | replay, conflict, missing wallet, gateway failure or one new PENDING deposit, in that order |
| Ledger.Repositories.ProcessDeposit | src/application/use-cases/wallet/process-deposit.usecase.js:38-144 | the whole decision table of the webhook, with the balance and status it leaves, also when the status update after the credit fails |
| Ledger.Repositories.RequestWithdrawal | src/application/use-cases/wallet/request-withdrawal.usecase.js:31-115 | replay while in progress, funds check, one new REQUIRES_APPROVAL row unless the key is taken |
| Ledger.Repositories.Commit | src/application/use-cases/admin/approve-withdrawal.usecase.js:71-77 | the writes of one database transaction are stored together or not at all |
| Ledger.Repositories.ApproveWithdrawal | src/application/use-cases/admin/approve-withdrawal.usecase.js:29-143 | payout failure, missing wallet, missing funds after payout, or debit together with COMPLETED; when a write or the commit fails the books stay as they were, though the payout has gone out |
| Ledger.Repositories.ChargeEntryFee | src/application/use-cases/tournament/registerForTournament.useCase.js:53-59 | a positive fee is debited exactly when the wallet covers it |
| LedgerLaws.StepExplained | src/application/use-cases/wallet/process-deposit.usecase.js:115-125 | what one step does to the part of a balance that completed transactions do not explain: minus the fee, plus what a leaking webhook adds |
| LedgerLaws.LedgerLaw | src/application/use-cases/wallet/process-deposit.usecase.js:115-125 | the same for every run whatever: leaking webhooks are all that upsets the books, to the cent |
| LedgerLaws.ConservedIff | src/application/use-cases/admin/approve-withdrawal.usecase.js:112-122 | balance = initial + completed deposits - completed withdrawals - fees, exactly when no webhook of the run credited that wallet for a withdrawal or without getting its status stored |
| LedgerLaws.LeakSumIsPositiveIff | src/application/use-cases/wallet/process-deposit.usecase.js:56-125 | the leak is positive exactly when some webhook of the run reaches the credit for a withdrawal, or reaches it and fails to store the status |
| LedgerLaws.WithdrawalCanBeCredited | src/application/use-cases/wallet/process-deposit.usecase.js:44-119 | a concrete run in which a webhook credits a withdrawal: the type is never checked |
| LedgerLaws.RunsStaySolvent | src/application/use-cases/admin/approve-withdrawal.usecase.js:95-113 | balances never become negative, however many withdrawals are pending together |
| LedgerLaws.RunsKeepKeysUnique | src/infrastructure/database/repositories/postgres.transaction.repository.js:163-168 | a key belongs to at most one transaction on every run |
| LedgerLaws.FinalStatusKeptIff | src/application/use-cases/wallet/process-deposit.usecase.js:56-94 | COMPLETED, FAILED, PAYMENT_FAILED and the post-payment error change in exactly one kind of step: a webhook that names a failed payout and gets its status stored |
| LedgerLaws.SettledForever | src/application/use-cases/wallet/process-deposit.usecase.js:56-68 | a COMPLETED or FAILED transaction never changes again, in any run |
| LedgerLaws.FinalForever | src/application/use-cases/admin/approve-withdrawal.usecase.js:50-117 | as long as webhooks name deposits, all four final statuses are final |
| LedgerLaws.CompletesOnce | src/application/use-cases/wallet/process-deposit.usecase.js:56-125 | a transaction is completed at most once in any run |
| LedgerLaws.MoneyMovesWithCompletion | src/application/use-cases/wallet/process-deposit.usecase.js:115-125 | apart from fees a balance moves only by the amount of one of the wallet's transactions, in a step that completes it unless that is a webhook whose status update fails |
| LedgerPayouts.SerialPayoutCounts | src/application/use-cases/admin/approve-withdrawal.usecase.js:50-142 | with positive amounts, serial runs can pay out a withdrawal any number of times, or not at all: at all exactly when it awaits approval or can still be requested |
| LedgerPayouts.PaidTwiceIff | src/application/use-cases/admin/approve-withdrawal.usecase.js:50-142 | so it can be paid out twice exactly when it awaits approval or can still be requested, since a failing write is rolled back and the payout is not |
| LedgerPayouts.WaitsAfterPayoutIff | src/application/use-cases/admin/approve-withdrawal.usecase.js:86-136 | a payout leaves the withdrawal awaiting approval exactly when it is rolled back: a write or the commit throws, or the wallet does not exist |
| LedgerPayouts.RepeatedPayoutHasACause | src/application/use-cases/admin/approve-withdrawal.usecase.js:86-136 | in every run, each payout of a withdrawal but the last is an approval that was rolled back |
| LedgerPayouts.PaidTwiceWhenStoredIff | src/application/use-cases/admin/approve-withdrawal.usecase.js:50-93 | when all writes of approvals are stored, a withdrawal can be paid out twice exactly when its wallet does not exist; otherwise at most once |
| LedgerPayouts.PayoutIsDebitedIff | src/application/use-cases/admin/approve-withdrawal.usecase.js:86-124 | a payout is followed by its debit exactly when the wallet exists, covers it, and the writes are stored; otherwise no balance moves |
| LedgerAnswers.CreditAnswerIff | src/application/use-cases/wallet/process-deposit.usecase.js:96-142 | a webhook that moves money is acknowledged exactly when the transaction is COMPLETED afterwards, and answered with an internal error exactly when it is not |
| LedgerAnswers.NoCreditAnswerIff | src/application/use-cases/wallet/process-deposit.usecase.js:56-94 | one that moves none is acknowledged exactly when it repeats a success on record or reports a failure of the right amount that is put on record |
| LedgerAnswers.WebhookErrors | src/application/use-cases/wallet/process-deposit.usecase.js:44-142 | which error it is in every other case |
| LedgerAnswers.ApprovalOutcomeIff | src/application/use-cases/admin/approve-withdrawal.usecase.js:55-124 | a stored approval leaves PAYMENT_FAILED exactly when the payout failed, the post-payment error exactly when it went out uncovered, COMPLETED exactly when it went out covered, and succeeds with COMPLETED alone |
| LedgerAnswers.ApprovalErrors | src/application/use-cases/admin/approve-withdrawal.usecase.js:42-53 | any other approval changes nothing, and how it is answered |
| LedgerAnswers.StatusTellsPayout | src/application/use-cases/admin/approve-withdrawal.usecase.js:69-108 | on every run, a transaction that came to the post-payment error was paid out in it, and one that came to PAYMENT_FAILED was refused in it |
| LedgerAnswers.WithdrawalIsNewIff | src/application/use-cases/wallet/request-withdrawal.usecase.js:35-98 | a withdrawal request adds exactly the withdrawal it asks for, awaiting approval, when its key is new and the wallet covers it, and otherwise nothing; no money moves |
| LedgerAnswers.WithdrawalErrors | src/application/use-cases/wallet/request-withdrawal.usecase.js:35-70 | which error a withdrawal request gets, and when |
| LedgerAnswers.DepositIsNewIff | src/application/use-cases/wallet/initialize-deposit.usecase.js:37-137 | a deposit request adds exactly the PENDING deposit it asks for when its key is new, the wallet exists and the gateway accepts, and otherwise nothing |
| LedgerAnswers.DepositErrors | src/application/use-cases/wallet/initialize-deposit.usecase.js:37-109 | which error a deposit request gets, and when |
| LedgerAnswers.FeeIsPaidIff | src/application/use-cases/tournament/registerForTournament.useCase.js:53-59 | a fee is paid in full by the one wallet, or refused exactly when that does not cover it |
| LedgerAnswers.OtherTransactionsStay | src/application/use-cases/wallet/process-deposit.usecase.js:115-125 | a step changes no transaction but the one it names |
| LedgerAnswers.OtherBalancesStay | src/application/use-cases/wallet/process-deposit.usecase.js:112-117 | a step moves no balance but that of the transaction it names or of who pays the fee |
| LedgerWebhooks.ReplayLaw | src/application/use-cases/wallet/process-deposit.usecase.js:56-125 | what any number of deliveries of a payload that passes the checks add: its amount for every delivery up to the first that gets its status stored |
| LedgerWebhooks.RejectedReplay | src/application/use-cases/wallet/process-deposit.usecase.js:56-94 | deliveries of any other payload do together what one does |
| LedgerWebhooks.ReplayIsOnceIff | src/application/use-cases/wallet/process-deposit.usecase.js:56-125 | deliveries of one payload do together what a single one would, exactly when it does not pass the checks or at most one of them credits the wallet |
| LedgerWebhooks.RecordedReplaysAreHarmless | src/application/use-cases/wallet/process-deposit.usecase.js:56-125 | which is so whenever every status update goes through |
| LedgerWebhooks.LateWebhookChangesNothing | src/application/use-cases/wallet/process-deposit.usecase.js:56-68 | once a transaction is settled a webhook for it changes nothing, however much happens in between |
| LedgerWebhooks.WebhooksCommute | src/application/use-cases/wallet/process-deposit.usecase.js:56-125 | webhooks for different transactions can change places |
| LedgerWebhooks.OrderDoesNotMatter | src/application/use-cases/wallet/process-deposit.usecase.js:56-125 | webhooks of distinct transactions give the same balances and statuses in every order |
| LedgerWebhooks.DepositRequestReplays | src/application/use-cases/wallet/initialize-deposit.usecase.js:49-80 | after any run, repeating a deposit request returns the first answer exactly while that deposit is PENDING or COMPLETED |
| LedgerWebhooks.WithdrawalRequestReplays | src/application/use-cases/wallet/request-withdrawal.usecase.js:40-98 | after any run, repeating a withdrawal request that succeeded, whoever had its key, creates nothing; it gets the first answer exactly while that is in progress or the wallet covers the amount |
| LedgerWebhooks.ForeignWithdrawalIff | src/application/use-cases/wallet/request-withdrawal.usecase.js:40-98 | a withdrawal request is answered with a transaction it did not ask for exactly when its key belongs to one that is in progress and differs only in kind or currency, or to one no longer in progress, anybody's, while the wallet covers the amount |
| LedgerWebhooks.ForeignDepositIff | src/application/use-cases/wallet/initialize-deposit.usecase.js:49-80 | a deposit request is answered with something else exactly when its key belongs to a pending or completed withdrawal of the same user, amount and currency |
| WalletEntities.Wallet.Create | src/domain/wallet/wallet.entity.js:15-42 | a negative balance is refused |
| WalletEntities.Wallet.Deposit | src/domain/wallet/wallet.entity.js:58-65 | a positive amount is added, anything else refused without effect |
| WalletEntities.Wallet.Withdraw | src/domain/wallet/wallet.entity.js:73-83 | a positive amount within the balance is taken, anything else refused without effect |
| WalletEntities.Wallet.HasSufficientFunds | src/domain/wallet/wallet.entity.js:90-95 | compares with the balance and refuses negative amounts |
| WalletEntities.WalletAddsUp | src/domain/wallet/wallet.entity.js:58-83 | on every run the balance is non-negative and the sum of the operations that succeeded |
| WalletEntities.WalletOpIff | src/domain/wallet/wallet.entity.js:58-83 | which operations succeed, by how much they move the balance, and that a withdrawal undoes a deposit |
| WalletEntities.Transaction.Create | src/domain/wallet/transaction.entity.js:18-51 | an amount that is not positive is refused |
| WalletEntities.Transaction.Complete | src/domain/wallet/transaction.entity.js:89-98 | possible from PENDING, PROCESSING and REQUIRES_APPROVAL only |
| WalletEntities.Transaction.Fail | src/domain/wallet/transaction.entity.js:105-111 | needs a reason, but no particular status |
| WalletEntities.Transaction.Cancel | src/domain/wallet/transaction.entity.js:117-124 | needs a reason and a status of PENDING or REQUIRES_APPROVAL |
| WalletEntities.ClosedKeptIff | src/domain/wallet/transaction.entity.js:74-124 | a closed transaction keeps its status exactly when no fail with a reason is among the operations |
| WalletEntities.TransactionOpIff | src/domain/wallet/transaction.entity.js:74-124 | from which statuses each operation goes through and where it leads |
| DepositLock.NoLostUpdate | src/application/use-cases/wallet/process-deposit.usecase.js:100-143 | with the lock, for any number of interleaved calls failing anywhere, every balance is its initial value plus all credits written to it |
| DepositLock.ScheduleLosesNothing | src/application/use-cases/wallet/process-deposit.usecase.js:100-143 | mutual exclusion, current reads and the balance equation hold along every schedule |
| DepositLock.OneAtATime | src/application/use-cases/wallet/process-deposit.usecase.js:102-107 | no two calls are ever inside the critical section of one wallet |
| DepositLock.SerialCallIsProcessDeposit | src/application/use-cases/wallet/process-deposit.usecase.js:38-144 | a call that runs alone under a free lock and meets no failure does exactly what the one-step model of the use case does |
| DepositLock.CrashedCallIsUnrecorded | src/application/use-cases/wallet/process-deposit.usecase.js:115-138 | and one whose status update fails what the one-step model does without recording the status |
| DepositRaces.NoMoreCreditsThanAccepted | src/application/use-cases/wallet/process-deposit.usecase.js:56-143 | under any schedule with any failures a transaction is credited at most once for each call that passes the checks against it |
| DepositRaces.SerialRetries | src/application/use-cases/wallet/process-deposit.usecase.js:115-138 | calls that run one after the other under the lock, each failing to store the status, credit the transaction once more each |
| DepositRaces.CreditCounts | src/application/use-cases/wallet/process-deposit.usecase.js:56-143 | a transaction can be credited n times exactly when n calls pass the checks against it, with the lock or without |
| DepositRaces.DoubleCreditIff | src/application/use-cases/wallet/process-deposit.usecase.js:56-143 | a deposit can be credited twice exactly when two webhooks pass the checks against it |
| DepositRaces.DoubleCreditWithoutFailureIff | src/application/use-cases/wallet/process-deposit.usecase.js:56-107 | the same condition when nothing ever fails: the checks overlap, since they stand outside the lock |
| DepositRaces.DoubleCreditHasACause | src/application/use-cases/wallet/process-deposit.usecase.js:56-125 | every double credit has one of two causes: overlapping checks, or a failure between the balance and the status, which no transaction joins |
| DepositRaces.QuietForever | src/application/use-cases/wallet/process-deposit.usecase.js:56-68 | once a transaction is settled and no call that checked it before is still under way, no schedule credits it again |
| DepositRaces.LostUpdateIff | src/application/use-cases/wallet/process-deposit.usecase.js:100-117 | an update of a wallet can be lost exactly when there is no lock manager and two webhooks with something to credit pass the checks for that wallet |
| WalletRaces.SerialApprovalIsWithdrawalApproved | src/application/use-cases/admin/approve-withdrawal.usecase.js:36-142 | the moves of an approval that runs alone are the use case in one step, wherever a write fails |
| WalletRaces.ScheduleKeepsLocksUsed | src/application/use-cases/wallet/process-deposit.usecase.js:100-143 | under every schedule, wherever calls fail, lock and row lock are only held by calls that are using them |
| WalletRaces.NeverStuck | src/application/use-cases/admin/approve-withdrawal.usecase.js:86-136 | no deadlock between the two kinds of lock: as long as some call is not over, some call can move on |
| WalletRaces.NeverTooLow | src/application/use-cases/wallet/process-deposit.usecase.js:100-143 | with a lock manager, or without two deposits of which one has something to lose, a balance never falls below what the stored moves of interleaved deposits and approvals add up to |
| WalletRaces.LostDepositIff | src/application/use-cases/wallet/process-deposit.usecase.js:100-143 | a balance can fall below that exactly when there is no lock manager and one of two deposits has something to lose |
| WalletRaces.LostDebitIff | src/application/use-cases/admin/approve-withdrawal.usecase.js:86-124 | a balance can rise above that, so that a debit is lost, exactly when some approval can be covered while a deposit is still to be written, lock manager or not: row lock and lock manager do not know of each other |
| WalletRaces.PayoutCounts | src/application/use-cases/admin/approve-withdrawal.usecase.js:36-84 | interleaved approvals can pay out a withdrawal n times exactly when n calls approve it while it awaits approval |
| WalletRaces.PayoutCountsWithoutFailure | src/application/use-cases/admin/approve-withdrawal.usecase.js:36-84 | the same numbers are possible when nothing ever fails, since the status is read without a lock |
| Idempotency.IdempotencyService.CheckAndLockKey | src/application/services/idempotency.service.js:30-106 | new, replay, conflict or wait, per key, without touching other keys; no key means always new |
| Idempotency.IdempotencyService.FindOrCreateRecord | src/infrastructure/database/repositories/postgres.idempotency.repository.js:54-80 | atomic find-or-create that leaves the row locked for the caller's transaction |
| Idempotency.IdempotencyService.UpdateRecord | src/infrastructure/database/repositories/postgres.idempotency.repository.js:82-116 | updates the row if it is there and not locked by somebody else |
| Idempotency.IdempotencyService.MarkAsCompleted | src/application/services/idempotency.service.js:115-137 | stores the outcome in the caller's transaction, or at once without one |
| Idempotency.IdempotencyService.MarkAsFailed | src/application/services/idempotency.service.js:146-165 | the same for a failure |
| Idempotency.IdempotencyService.EndTransaction | src/application/services/idempotency.service.js:98-102 | commit publishes and rollback drops everything the transaction staged, on every row |
| IdempotencyLaws.StepKeepsOneWinner | src/application/services/idempotency.service.js:37-99 | any step by any caller leaves at most one win that is not rolled back, backed by the row |
| IdempotencyLaws.AtMostOneWin | src/application/services/idempotency.service.js:37-99 | under any interleaving, with any commits and rollbacks, at most one attempt that was told it is new survives |
| IdempotencyLaws.RollbackFreesTheKey | src/application/services/idempotency.service.js:101-105 | in every history, when the transaction of an open win rolls back the row is gone and the next check by anybody wins the key |
| IdempotencyLaws.RunKeepsOrder | src/application/services/idempotency.service.js:115-165 | as long as only the surviving winner records an outcome, once, a committed outcome never changes |
| IdempotencyLaws.EveryLaterCheckReplays | src/application/services/idempotency.service.js:56-84 | under that discipline every later check, by anybody, waits for the lock or gets exactly the stored response |
| IdempotencyLaws.MarkRoundTrip | src/application/services/idempotency.service.js:115-129 | the response that is stored is the response that is replayed after commit, and after rollback there is no trace of it |
| IdempotencyLaws.FailureRoundTrip | src/application/services/idempotency.service.js:67-84 | a stored failure is replayed as stored, with status 500 and the default body for what it lacks |
| IdempotencyLaws.AnswerTellsIff | src/application/services/idempotency.service.js:43-99 | a check waits exactly for a lock in other hands, is new exactly when no record is seen, is rejected exactly when the record is PENDING or PROCESSING, and is answered with a replay exactly for an outcome |
| IdempotencyLaws.NewIsPending | src/application/services/idempotency.service.js:46-98 | after a new request the key is rejected for its own transaction and closed to all others |
| IdempotencyLaws.CheckKeepsRecords | src/application/services/idempotency.service.js:56-94 | a check that is not new leaves the records as they are and takes at most the lock |
| IdempotencyLaws.MarkIff | src/application/services/idempotency.service.js:115-165 | what an update stores, for whom it is visible, and when it has no effect |
| IdempotencyLaws.OnlyHolderEnds | src/application/services/idempotency.service.js:43-44 | a transaction ends with effect on a row exactly when it holds its lock, and then publishes or drops all it wrote |
| IdempotencyLaws.ReplayNeedsOutcome | src/application/services/idempotency.service.js:56-94 | on every run from a row with nothing recorded, no check is answered with a replay before some step recorded an outcome |
| IdempotencyLaws.OutcomeChangesIff | src/application/services/idempotency.service.js:115-165 | a committed outcome changes in a step exactly when that is an update outside any transaction that does not wait and differs, or the commit of a different staged record |
| IdempotencyLaws.KeptUnlessOverwritten | src/application/services/idempotency.service.js:115-165 | on every run, by any callers, the stored response stays at every point exactly when no step of the run is of that kind |
| IdempotencyLaws.LateFailureOverwrites | src/application/services/idempotency.service.js:146-165 | a concrete run in which a rolled-back attempt overwrites the stored response of the winner |
| Tournaments.Tournament.FromPersistence | src/domain/tournament/tournament.entity.js:62-146 | a record is rebuilt exactly when it passes the constructor's checks |
| Tournaments.Tournament.OpenRegistration | src/domain/tournament/tournament.entity.js:195-200 | only from PENDING or UPCOMING |
| Tournaments.Tournament.CloseRegistration | src/domain/tournament/tournament.entity.js:202-207 | only from REGISTRATION_OPEN |
| Tournaments.Tournament.StartTournament | src/domain/tournament/tournament.entity.js:209-218 | only from REGISTRATION_OPEN or REGISTRATION_CLOSED |
| Tournaments.Tournament.CompleteTournament | src/domain/tournament/tournament.entity.js:220-226 | only from ONGOING; an end date is kept if there is one |
| Tournaments.Tournament.CancelTournament | src/domain/tournament/tournament.entity.js:228-235 | from everything but COMPLETED and CANCELED |
| Tournaments.Tournament.AddParticipant | src/domain/tournament/tournament.entity.js:262-268 | counts one more exactly when registration is open and there is room |
| Tournaments.Tournament.RemoveParticipant | src/domain/tournament/tournament.entity.js:270-275 | never counts below zero |
| Tournaments.Tournament.UpdateDetails | src/domain/tournament/tournament.entity.js:282-359 | field by field, with exactly the prefix of changes that a failure leaves behind |
| Registration.TournamentOffice.FindById | src/infrastructure/database/models/tournament.model.js:6-15 | loading fails for a missing record and for one the entity refuses |
| Registration.TournamentOffice.Register | src/application/use-cases/tournament/registerForTournament.useCase.js:17-71 | guards in order, then the writes |
| Registration.TournamentOffice.WriteRegistration | src/application/use-cases/tournament/registerForTournament.useCase.js:53-70 | debit, row and count, with what each failure leaves behind |
| Registration.TournamentOffice.CreateParticipant | src/application/use-cases/tournament/registerForTournament.useCase.js:61-66 | one row more and the count as it was |
| Registration.TournamentOffice.IncrementParticipantCount | src/infrastructure/database/repositories/postgres.tournament.repository.js:307-315 | one count more and the rows as they were |
| Registration.TournamentOffice.RemoveParticipant | src/application/use-cases/admin/remove-tournament-participant.usecase.js:21-73 | guards in order, then the row and the count go together |
| Registration.TournamentOffice.ChangeStatus | src/application/use-cases/admin/change-tournament-status.usecase.js:19-99 | the administrator's transition relation, errors included, also that of loading the stored record again |
| Registration.TournamentOffice.UpdateDetails | src/application/use-cases/admin/update-tournament-details.usecase.js:32-67 | stored only when all of the update went through |
| RegistrationLaws.PartialUpdateFits | src/domain/tournament/tournament.entity.js:320-327 | even when the update throws halfway, counter and capacity still fit and the capacity is above 1 |
| RegistrationLaws.UpdateSucceedsIff | src/domain/tournament/tournament.entity.js:282-359 | the update goes through exactly when every given field is acceptable and the resulting dates are in order |
| RegistrationLaws.UpdateSetsWhatIsGiven | src/domain/tournament/tournament.entity.js:282-359 | when it does, given fields have the given values and all others the old ones |
| RegistrationLaws.UpdateChangesIff | src/domain/tournament/tournament.entity.js:282-359 | a refused update has changed the entity in memory exactly when it touches a field before the first check that fails |
| RegistrationLaws.UpdateKeepsLoads | src/domain/tournament/tournament.entity.js:282-359 | an update that goes through leaves a record that can be loaded again |
| RegistrationLaws.WithoutOnlyThat | src/application/use-cases/admin/remove-tournament-participant.usecase.js:49-51 | removing a participant removes that row and no other |
| RegistrationLaws.RunsDrift | src/application/use-cases/tournament/registerForTournament.useCase.js:61-68 | over every run the rows are ahead of the counter by exactly the number of counts that failed |
| RegistrationLaws.CounterAgreesIff | src/application/use-cases/tournament/registerForTournament.useCase.js:27-68 | on every run the counter equals the number of participants, all distinct and within a capacity above 1, exactly when no registration of the run failed to count its row |
| RegistrationLaws.FrozenStretch | src/application/use-cases/admin/remove-tournament-participant.usecase.js:45-47 | as long as a tournament is ONGOING, COMPLETED or CANCELED its participants stay the same |
| RegistrationLaws.StatusMovesIff | src/application/use-cases/admin/change-tournament-status.usecase.js:32-84 | a tournament can be brought from one status to another in one step exactly when the move is on the list |
| RegistrationLaws.CompletedWasOpenThenOngoing | src/application/use-cases/admin/change-tournament-status.usecase.js:32-84 | a COMPLETED tournament has, since it was last PENDING or UPCOMING, had its registration open and then been ONGOING |
| RegistrationLaws.CompletedCanReturn | src/application/use-cases/admin/change-tournament-status.usecase.js:74-75 | COMPLETED and CANCELED are not terminal |
| RegistrationLaws.CompletionLoadsIff | src/domain/tournament/tournament.entity.js:220-226 | a tournament completed at time t can be loaded again, and the request succeeds, exactly when it had an end date or t is not before its start |
| RegistrationLaws.UnloadsIff | src/domain/tournament/tournament.entity.js:62-78 | exactly two kinds of step make a loadable record unloadable: that completion, and removing a participant when the counter is 0 |
| RegistrationLaws.UnloadableStays | src/domain/tournament/tournament.entity.js:116-146 | such a record is out of reach of every use case for good |
| RegistrationLaws.RegistrationIsWholeIff | src/application/use-cases/tournament/registerForTournament.useCase.js:51-70 | registering changes nothing or everything, unless it passes every check and then the count fails, or the row fails after a fee |
| RegistrationLaws.FeeWithoutRowIff | src/application/use-cases/tournament/registerForTournament.useCase.js:53-66 | a fee is taken without a row exactly when the registration passes every check, costs something, and fails to store the row |
| RegistrationAnswers.LoadIff | src/domain/tournament/tournament.entity.js:62-78 | exactly which records can be loaded |
| RegistrationAnswers.MayRegisterIff | src/application/use-cases/tournament/registerForTournament.useCase.js:22-57 | who gets to the writes: the record loads, registration is open, there is room, no row yet, a profile, and the fee is covered |
| RegistrationAnswers.RegisterSucceedsIff | src/application/use-cases/tournament/registerForTournament.useCase.js:22-70 | when nothing fails, registering succeeds exactly for those, and then pays the fee, adds the row and counts one |
| RegistrationAnswers.RegisterErrors | src/application/use-cases/tournament/registerForTournament.useCase.js:22-57 | which error a registration gets, and when |
| RegistrationAnswers.WritesUpToFault | src/application/use-cases/tournament/registerForTournament.useCase.js:53-68 | what stays written, and the answer, when one of the three writes fails |
| RegistrationAnswers.RowNeedsOpenRoom | src/application/use-cases/tournament/registerForTournament.useCase.js:27-66 | a step that adds a row is a registration that finds the tournament REGISTRATION_OPEN and with room |
| RegistrationAnswers.MoreRowsNeedOpenRoom | src/application/use-cases/tournament/registerForTournament.useCase.js:27-66 | on every run a tournament gains rows only if it was REGISTRATION_OPEN with room in a step that registered |
| RegistrationAnswers.RemovalSucceedsIff | src/application/use-cases/admin/remove-tournament-participant.usecase.js:26-58 | when a removal succeeds, and that it takes that row and one count and nothing else |
| RegistrationAnswers.RemovalErrors | src/application/use-cases/admin/remove-tournament-participant.usecase.js:26-47 | which error a removal gets, and when |
| RegistrationAnswers.AddThenRemove | src/domain/tournament/tournament.entity.js:262-275 | a participant is counted exactly while registration is open and there is room, and removing undoes it |
| RegistrationAnswers.OperationIff | src/domain/tournament/tournament.entity.js:195-235 | each of the entity's operations makes its move exactly when the move is listed |
| RegistrationAnswers.StatusRequestIff | src/application/use-cases/admin/change-tournament-status.usecase.js:32-96 | a request for a status leads to exactly that status when the move is listed, and is refused without effect otherwise |
| RegistrationAnswers.UpdateRequestIff | src/application/use-cases/admin/update-tournament-details.usecase.js:37-66 | an update is stored exactly when the game exists and every field is acceptable, and then as given |
| RegistrationAnswers.UpdateLeavesPrefix | src/domain/tournament/tournament.entity.js:282-359 | an update leaves in memory exactly the given fields before the first check that fails |
| RegistrationRaces.SerialCallIsRegistered | src/application/use-cases/tournament/registerForTournament.useCase.js:17-71 | the moves of a registration that runs alone are the use case in one step, wherever a write fails |
| RegistrationRaces.ScheduleKeepsSince | src/application/use-cases/tournament/registerForTournament.useCase.js:22-68 | under every schedule rows, count and balances are what the calls have written, and what a call has passed was so from the start |
| RegistrationOutcomes.OutcomeIff | src/application/use-cases/tournament/registerForTournament.useCase.js:27-68 | which calls can end up with a row, and which of those counted: exactly any that pass the checks at the start and whose users can pay for all of them; room is no limit |
| RegistrationOutcomes.RowsOfUserIff | src/application/use-cases/tournament/registerForTournament.useCase.js:34-66 | how many rows one user can gain in interleaved registrations: exactly any number up to the calls with a game profile, as far as the balance covers the fees, if there is room and the user is not registered |
| RegistrationOutcomes.OverfillIff | src/application/use-cases/tournament/registerForTournament.useCase.js:27-68 | interleaved registrations can overfill a tournament, so that it can no longer be loaded, exactly when calls that can get a row together are more than it has room for |
| RegistrationOutcomes.FreeOverfillIff | src/application/use-cases/tournament/registerForTournament.useCase.js:27-68 | without a fee: exactly when more calls pass the checks at the start than there is room for |
| Platform.LedgerView | src/application/use-cases/tournament/registerForTournament.useCase.js:53-59 | for the books, a run of registrations and payments is the run of its payments and fees |
| Platform.FeeBuysRowIff | src/application/use-cases/tournament/registerForTournament.useCase.js:53-66 | what a fee buys: the row, or nothing when storing the row fails |
| Platform.FeesBuyRowsOrAreLost | src/application/use-cases/tournament/registerForTournament.useCase.js:53-68 | every fee taken in a run bought a row or is lost |
| Platform.PlatformConservedIff | src/application/use-cases/tournament/registerForTournament.useCase.js:53-59 | over one run of registration and ledger: balance = initial + completed deposits - completed withdrawals - fees for rows - lost fees, exactly when no webhook leaked to that wallet |
| Teams.TeamService.AddTeamMember | src/application/use-cases/teamMember/addTeamMember.usecase.js:13-86 | only active owners and admins invite, nobody invites an owner, admins invite no admins, and only those who are gone can be invited again |
| Teams.TeamService.UpdateTeamMemberStatus | src/application/use-cases/teamMember/updateTeamMemberStatus.usecase.js:12-94 | an invitation is answered once, an active member may leave, the owner may not |
| Teams.TeamService.UpdateTeamMemberRole | src/application/use-cases/teamMember/updateTeamMemberRole.usecase.js:11-80 | only the owner changes roles, never to or from OWNER, and only of active members |
| Teams.TeamService.RemoveTeamMember | src/application/use-cases/teamMember/removeTeamMember.usecase.js:11-71 | the removal hierarchy |
| Teams.TeamService.ChangeTeamOwner | src/infrastructure/database/repositories/postgres.team.repository.js:97-158 | old owner becomes ADMIN and the new one an active OWNER, in one step |
| TeamLaws.EveryTeamKeepsItsOwner | src/application/use-cases/team/changeTeamOwner.usecase.js:21-45 | on every run each team has exactly one OWNER membership, active, of the user that ownerId names |
| TeamLaws.OwnerMovesIff | src/application/use-cases/team/changeTeamOwner.usecase.js:24-45 | ownership moves exactly when the owner of that moment hands it to another existing user |
| TeamLaws.TransferAndBack | src/infrastructure/database/repositories/postgres.team.repository.js:125-149 | handing ownership over and back leaves everybody but the two of them as they were |
| TeamLaws.AdminsAreMadeByOwners | src/application/use-cases/teamMember/updateTeamMemberRole.usecase.js:46-49 | an ADMIN membership only comes into being in a step of the owner of that moment |
| TeamLaws.AdminProvenance | src/application/use-cases/teamMember/addTeamMember.usecase.js:22-37 | on every run each ADMIN membership has stood since the start without a break or goes back to such a step, since which it has not lapsed |
| TeamLaws.RemovalNeedsRank | src/application/use-cases/teamMember/removeTeamMember.usecase.js:33-52 | a membership ends at its user's own hand or at that of an active member of higher rank |
| TeamLaws.RiseNeedsOwner | src/application/use-cases/teamMember/updateTeamMemberRole.usecase.js:46-56 | nobody's rank rises except at the owner's hand |
| TeamLaws.ActivationNeedsConsent | src/application/use-cases/teamMember/updateTeamMemberStatus.usecase.js:36-43 | a membership becomes active only when its user accepts an invitation or receives the ownership |
| TeamAnswers.InviteIff | src/application/use-cases/teamMember/addTeamMember.usecase.js:22-57 | an invitation succeeds exactly for a rank below the inviter's and a user who is not engaged; it seats that user as INVITED with that role, MEMBER by default |
| TeamAnswers.InviteErrors | src/application/use-cases/teamMember/addTeamMember.usecase.js:22-82 | which error an invitation gets, and when |
| TeamAnswers.AnswerIff | src/application/use-cases/teamMember/updateTeamMemberStatus.usecase.js:20-75 | which answers a member can give, and that the membership gets that status and keeps its role |
| TeamAnswers.RoleChangeIff | src/application/use-cases/teamMember/updateTeamMemberRole.usecase.js:25-63 | a role changes exactly at the owner's hand, for an active other member, to a lower role than OWNER, and to the one asked for |
| TeamAnswers.RoleChangeErrors | src/application/use-cases/teamMember/updateTeamMemberRole.usecase.js:25-56 | which error a role change gets, and when |
| TeamAnswers.RemovalIff | src/application/use-cases/teamMember/removeTeamMember.usecase.js:20-58 | a removal succeeds exactly for oneself or for a lower rank, never for the owner; only the target goes |
| TeamAnswers.RemovalErrors | src/application/use-cases/teamMember/removeTeamMember.usecase.js:20-52 | which error a removal gets, and when |
| TeamAnswers.TransferIff | src/application/use-cases/team/changeTeamOwner.usecase.js:21-45 | when ownership passes, what the two become, and which error it is otherwise |
| TeamAnswers.OthersUntouched | src/application/use-cases/teamMember/removeTeamMember.usecase.js:33-58 | a step changes no membership but those of its target and its actor |
| TeamAnswers.InvitedOnlyWhenGone | src/infrastructure/database/repositories/postgres.teamMember.repository.js:20-36 | a member is invited again only once the earlier membership is over, and only by a higher rank |

## Left out

- Express routes, controllers, validators, sockets, mail, storage, queues, configuration and migrations: input, output and wiring.
- Tokens, password hashes, CSRF and XSS handling: calls into libraries.
- Checks that arguments are present: the types rule absent arguments out. Statuses, roles and enums are types too, so calls with unknown strings are not modelled, except in `updateDetails`.
- Descriptions, notes, metadata, logging, notifications and timestamps that nothing reads: they are only written.
- Floating point: `Math.log2` is exact, money is in cents, and text that does not parse as a number (and would store NaN) does not occur.
- Lock timeouts: the lock manager either grants a lock or does not, and a lock is held until it is released.
- LedgerLaws.FinalForever: assumes that webhooks name deposits, because the webhook reopens failed payouts otherwise (LedgerLaws.FinalStatusKeptIff says exactly when).
- IdempotencyLaws.EveryLaterCheckReplays: assumes that only the surviving winner records an outcome, because the service does not check who does (IdempotencyLaws.KeptUnlessOverwritten says exactly when a response changes).
- MatchHistory.FlagsAgreeOnEveryRun: covers the guarded operations; MatchHistory.FlagsKeptUnless says when a raw status update breaks the flags.
- Creating teams and answering invitations by record: both name roles by exports that do not exist; runs start from teams with one active owner.
- Rank restrictions: `fromPersistence` never passes one on, so every loaded tournament admits every rank.
- Resolving dispute tickets, rejecting withdrawals, team registration for tournaments, double elimination, round robin and the tournament worker: placeholders or dependent on names that do not exist.
- `generate`, `generateSingleMatch`, pagination, profiles, games, chat and file scanning: they would only add easy members.
- Interleavings of team operations and of requests: these use cases are one step each. Deposits interleave in DepositRaces, deposits and approvals of one wallet in WalletRaces, registrations for one tournament in RegistrationRaces, where nothing else changes that tournament and its wallets meanwhile.
- WalletRaces leaves out the statuses of deposits, which DepositRaces covers, and follows one wallet.
- RegistrationRaces takes the check of the balance and the debit as one move, because the wallet repository does not define `debit`.
- Failures of the single writes: modelled for the deposit webhook, for the approval, whose payout is outside its database transaction, and for registration. The other use cases write once, or inside a database transaction, and a failure leaves the model's state as it was; that the payment gateway then knows of a deposit that is not on record is not modelled.
- Creating wallets and deleting them: runs start from the wallets there are. LedgerPayouts.PaidTwiceIff and LedgerPayouts.SerialPayoutCounts assume positive amounts, which the transaction entity demands.
- Platform.PlatformConservedIff: takes registration as the only source of entry fees, which it is.

# hifumin economy core, modelled in Dafny

hifumin is a Discord trading-card bot. Players drop cards that depict osu! mappers. They claim
dropped cards from buttons, burn cards for gold and dust, upgrade a card's condition, trade
cards directly or through trade sessions, put cards to work in four job slots, gamble gold on
a slot machine, buy shop items, use consumables (speedups and superdrops) and keep a wishlist
of mappers. Every balance lives in one inventory table of (user, item) amounts; gold is just
the item `gold`. Three commands (drop, claim, daily) are rate limited by per-user cooldowns.

This project models that core as Dafny:

- The database is one object, `State.World`. Every table the economy writes is a map field:
  cards, the ledger, cooldowns, user effects, job assignments, trade sessions, the card
  sequence and wishlists. Catalog tables (mappers, card conditions, shop items, inventory
  items) are constants of the world.
- Each command or service transaction is a method on the world. Its `modifies` clause names
  the fields it may write, so the other tables are unchanged by construction.
- Each transaction's `ensures` ties the new state to a specification function of the old
  state. The lemmas about those functions state what the bot promises: round trips, balances
  never going negative, conservation of traded items, cooldown behaviour and the outcome of
  every decision branch.
- Derived values of entities (burn value, dust, job effort, progress, success chance, the
  cooldown view) are pure functions of a row snapshot and the clock.
- Every `Math.random()` outcome is a parameter of type `Roll` (a real in [0, 1)). So are the
  clock (`now`, in milliseconds) and the mappers the weighted SQL draws return.

Modules follow the source files: `Types` (src/types.ts), `Numeric` (JavaScript rounding),
`Entities` (row shapes), `State` (the world), `ItemService`, `Timeout`, `CardIds`,
`CardCode` (src/lib/utils.ts stringId), `Cards` (src/entities/card.ts), `JobAssignments`,
`CardService`, `Drop`, `Claim`, `Burn`, `Upgrade`, `Trade`, `TradeService`, `Jobs`, `Buy`,
`Daily`, `Gamble`, `Use` and `Wishlist`.

The model follows the code as written; in particular:

- `changeItemCount` floors fractional amounts (`Math.floor`).
- The upgrade commit's "condition unchanged" check compares the quoted condition with itself,
  so it never fires. A concurrent tier change is therefore not detected.
- The upgrade lookup by explicit card code does not filter burned cards.
- The direct trade's commit reads `carda.id` before checking that the card still exists, so a
  card that vanished crashes (and rolls back) the transaction instead of replying
  "Trade failed".
- The Daily cooldown's remaining time is measured from the midnight of the last use, because
  `setHours` mutates the stored date in place.

There are three exceptions, listed under "## Findings". In each, the code as written defeats its
own purpose: addCard refuses every card, executeTrade rejects every card offer and sends user1's
offers the wrong way, and the upgrade commit never rolls. For these, `TradeService.AddCard`,
`TradeService.ExecuteTrade` and `Upgrade.CommitUpgrade` (with `Upgrade.RunUpgrade`, which calls it)
model the evidently intended behaviour. The members named in the table's "as-written" column
model the code as written and prove the defect.

## Model

| member | source | states |
|---|---|---|
| Types.MakeOk | src/types.ts:34-35 | `Result.ok(v)` is an Ok carrying v, for which isOk holds and isErr does not |
| Types.MakeErr | src/types.ts:36 | `Result.err(m)` is an Err carrying the message m, for which isErr holds and isOk does not |
| Types.ExactlyOneTag | src/types.ts:1-30 | every result is exactly one of Ok and Err, and isOk and isErr always disagree |
| Numeric.Floor | src/services/itemService.ts:46 | Math.floor: the integer f with f ≤ x < f + 1 |
| Numeric.Ceil | src/entities/card.ts:70 | Math.ceil: the integer c with x ≤ c < x + 1 |
| Numeric.Round | src/entities/card.ts:95-97 | Math.round rounds halves up: x − 0.5 < r ≤ x + 0.5 |
| Numeric.CeilMonotone | src/entities/card.ts:70 | rounding up never reverses the order of two values |
| Numeric.RoundMonotone | src/entities/card.ts:95-97 | rounding half up never reverses the order of two values |
| ItemService.GetItemCount | src/services/itemService.ts:9-26 | a user without an entry holds 0 of the item; on a valid ledger no count is negative |
| ItemService.ChangedLedger | src/services/itemService.ts:46-64 | a change succeeds exactly when the balance plus the delta is not negative; otherwise it fails with 'Insufficient items' |
| ItemService.ChangeEffect | src/services/itemService.ts:52-64 | a successful change moves exactly the (user, item) balance by the delta, touches no other entry and keeps every balance non-negative |
| ItemService.ChangeCreatesEntry | src/services/itemService.ts:56-63 | a missing entry is inserted holding exactly a non-negative delta |
| ItemService.ChangeInverse | src/services/itemService.ts:28-68 | debiting what was just credited restores every balance |
| ItemService.ChangeItemCount | src/services/itemService.ts:28-68 | floors the amount; on success returns the balance held before and leaves the changed ledger; on failure the ledger is unchanged |
| CardIds.IdBlock | src/services/getNextCardId.ts:22-26 | an allocation returns exactly count numbers |
| CardIds.IdBlockAt | src/services/getNextCardId.ts:24-26 | the i-th allocated number is start + i, so a block has no repeats |
| CardIds.SuccessiveBlocks | src/services/getNextCardId.ts:18-26 | two successive allocations are disjoint and adjacent: together they form the block one combined allocation would give |
| CardIds.GetNextCardId | src/services/getNextCardId.ts:4-30 | a missing sequence row is an error and changes nothing; otherwise the numbers from the old value on are returned and the sequence advances by count |
| CardCode.StringId | src/lib/utils.ts:55-69 | the digit loop followed by the reversal yields exactly the specified code of the number |
| CardCode.Reverse | src/lib/utils.ts:68 | reversal keeps the length |
| CardCode.ReverseLowFirst | src/lib/utils.ts:63-68 | reversing the least-significant-first digits gives the most-significant-first numeral |
| CardCode.EncodeLength | src/lib/utils.ts:59-61 | codes have four symbols below 36^4 and five from 36^4 on |
| CardCode.EncodeInAlphabet | src/lib/utils.ts:57-64 | every symbol of a code is one of the 36 symbols a-z, 0-9 |
| CardCode.ValueOfDigits | src/lib/utils.ts:63-66 | the w symbols written are exactly the number's low w base-36 digits |
| CardCode.DecodeEncode | src/lib/utils.ts:55-69 | round trip: every number below 36^4 + 36^5 is recovered from its code |
| CardCode.EncodeInjective | src/lib/utils.ts:55-69 | distinct numbers below 36^4 + 36^5 get distinct codes |
| CardCode.FirstCodes | src/lib/utils.ts:55-69 | number 0 is 'aaaa' and number 36^4 is 'aaaaa' |
| Cards.BurnValue | src/entities/card.ts:63-71 | the burn value is the least integer at or above rarity × multiplier × 5, doubled for foil |
| Cards.CalculateBurnValue | src/entities/card.ts:61-71 | the insert/update hook sets burnValue from the mapper's rarity and the condition's multiplier and changes no other column |
| Cards.CalculateBurnValueIdempotent | src/entities/card.ts:61-71 | running the hook twice is the same as running it once |
| Cards.FoilBurnValue | src/entities/card.ts:66-70 | a foil card burns for twice the plain value, or one less |
| Cards.BurnValueMonotone | src/entities/card.ts:64-70 | a better condition multiplier never lowers the burn value |
| Cards.DustValue | src/entities/card.ts:73-75 | the dust value is a tenth of the rarity, rounded up |
| Cards.DustValueBounds | src/entities/card.ts:73-75 | a card of positive rarity yields between 1 and rarity dust |
| Cards.DustTypeInjective | src/entities/card.ts:77-84 | each condition burns into its own dust item, and none of them is gold |
| Cards.Attributes | src/entities/card.ts:86-92 | the attribute list holds 'Foil' exactly for a foil card, and nothing else |
| Cards.MindblockLapses | src/entities/card.ts:100-102 | a mindblock ends at its date and never returns without a new date; no date means no mindblock |
| Cards.JobEffort | src/entities/card.ts:94-98 | effort is base × motivation / 10, halved when mindblocked, rounded half up |
| Cards.JobEffortNonNegative | src/entities/card.ts:94-98 | effort is never negative for a non-negative base and motivation |
| Cards.MindblockNeverRaisesEffort | src/entities/card.ts:94-98 | a mindblock never raises effort |
| Cards.EffortMonotoneInMotivation | src/entities/card.ts:94-98 | more motivation never lowers effort |
| JobAssignments.Progress | src/entities/job_assignment.ts:37-54 | an idle job has progress 0; progress never exceeds 1; it is undefined (NaN or −Infinity) only for a zero-length job before its start |
| JobAssignments.TimeRemaining | src/entities/job_assignment.ts:56-64 | the remaining time is never negative, is 0 exactly from activeUntil on, and otherwise reaches activeUntil |
| JobAssignments.ProgressAgreesWithTimeRemaining | src/entities/job_assignment.ts:37-64 | a started job's progress lies in [0, 1] and is 1 exactly when no time remains |
| JobAssignments.ProgressMonotone | src/entities/job_assignment.ts:37-54 | progress never goes backwards as time passes |
| JobAssignments.SuccessChance | src/entities/job_assignment.ts:66-79 | the success chance never exceeds 0.9 |
| JobAssignments.SuccessChanceBounds | src/entities/job_assignment.ts:66-79 | the chance is at least 0.3 (0.15 when mindblocked); a mindblock never raises it; more motivation never lowers it |
| Timeout.Midnight | src/services/timeout.ts:93-97 | `setHours(0, 0, 0, 0)` gives the start of the day that contains t |
| Timeout.ActualRemainingTime | src/services/timeout.ts:78-111 | a user who never used the command has no remaining time |
| Timeout.RemainingTime | src/services/timeout.ts:69-77 | a held free claim hides the remaining time; otherwise it is the actual remaining time |
| Timeout.GetTimeout | src/services/timeout.ts:13-62 | the view holds the stored last use; Daily is never sped up; the free-claim bypass exists exactly for Claim with a positive free-claim count |
| Timeout.NoRecordNeverBlocks | src/services/timeout.ts:66-79 | a command never used before is not blocked |
| Timeout.CooldownDurations | src/services/timeout.ts:83-110 | Drop waits 30 minutes and Claim 10, each halved by its speedup, counted from the last use |
| Timeout.FreeClaimBypass | src/services/timeout.ts:45-77 | a held free claim unblocks Claim without changing the actual remaining time; Drop and Daily views never hold one |
| Timeout.DailyResetsAtMidnight | src/services/timeout.ts:90-104 | Daily used earlier the same day is blocked until midnight; on any later day it is open |
| Timeout.BlockedAfterUse | src/services/timeout.ts:66-110 | right after a use, Drop and Claim stay blocked for their whole cooldown |
| Timeout.ConsumeResult | src/services/timeout.ts:112-134 | consume is refused while blocked; with a free claim covering a running cooldown it spends one free claim; otherwise it records now as the last use |
| Timeout.ConsumeAfterCheck | src/services/timeout.ts:112-124 | a handler that saw the command unblocked can always consume, and consuming keeps every balance non-negative |
| Timeout.ConsumeThenBlocked | src/services/timeout.ts:125-133 | after a recorded use, Drop and Claim are blocked for their full cooldown |
| Timeout.Consume | src/services/timeout.ts:112-134 | consume on the world writes exactly the tables ConsumeResult describes, or nothing on error |
| CardService.ToLower | src/services/cardService.ts:19 | lower-casing keeps the length, maps each ASCII capital to its small letter and keeps every other character |
| CardService.ToLowerIdempotent | src/services/cardService.ts:19 | lower-casing twice is lower-casing once |
| CardService.FindUnburned | src/interaction-handlers/claim.ts:44-56 | the lookup with `burned: false` finds a card exactly when it exists and is not burned |
| CardService.GetOwnedCard | src/services/cardService.ts:8-40 | a found card is the one stored under the lower-cased code |
| CardService.GetOwnedCardCases | src/services/cardService.ts:17-35 | Ok exactly for an unburned card the user owns; 'Card not found' for a missing, burned or unowned card; "You don't own this card" otherwise |
| CardService.GetCardUsageCases | src/services/cardService.ts:42-53 | a card is in a job slot exactly when some job assignment references it |
| Claim.ParseClaim | src/interaction-handlers/claim.ts:17-23 | a parsed code is what follows the 'claim:' prefix of the button id |
| Claim.ParseClaimInverse | src/commands/drop.ts:123 | parse recovers the code from every button id that drop and superdrop build |
| Claim.ClaimDecisionCases | src/interaction-handlers/claim.ts:31-143 | a claim transfers the card and costs the cooldown exactly for an unblocked claimant on a live card they do not own that is unowned or was dropped by them; the dropper wins a fight exactly when the roll is below 0.75 |
| Claim.RunClaim | src/interaction-handlers/claim.ts:25-145 | the handler follows the decision; a transfer sets owner and claimedBy of that card only; fights and claims consume the cooldown; otherwise the cards are unchanged |
| Claim.SettleClaim | src/interaction-handlers/claim.ts:65-138 | past the cooldown check, on a found unburned card: the outcome is the decision tree's, the cooldown is consumed exactly for fights and claims, and only a transfer changes the cards |
| Claim.TransferCard | src/interaction-handlers/claim.ts:79-82 | a transfer sets owner and claimedBy of that one card and keeps the card table well formed |
| Daily.Reward | src/commands/daily.ts:32 | the reward is between 50 and 249 gold |
| Daily.RewardReachable | src/commands/daily.ts:32 | every amount from 50 to 249 is paid by some roll |
| Daily.ClaimDaily | src/commands/daily.ts:18-42 | while blocked nothing changes; otherwise the reward is credited in gold and now is recorded as the last Daily use |
| Daily.ClaimedTodayBlocks | src/services/timeout.ts:90-104 | after a claim, every later call on the same calendar day is blocked |
| Daily.NextDayOpen | src/services/timeout.ts:90-104 | a claim recorded on an earlier day never blocks |
| Drop.DropCount | src/commands/drop.ts:35 | a drop has 5 cards when the roll is below 0.05 and 3 otherwise |
| Drop.PickConditionOdds | src/commands/drop.ts:64-71 | conditions are drawn with odds BadlyDamaged 2/8, Poor 3/8, Good 2/8, Mint 1/8 |
| Drop.Minted | src/commands/drop.ts:70-97 | one card is minted per picked mapper |
| Drop.MintedCards | src/commands/drop.ts:70-85 | each minted card depicts its mapper, is unowned, unclaimed and unburned, was dropped by the user and holds the burn value of its rarity, condition and foil; the list is valid |
| Drop.MintedCodes | src/commands/drop.ts:73 | below 36^4 + 36^5 the codes of a drop are those of the allocated numbers in order, so no two cards share a code |
| Drop.SavedValid | src/commands/drop.ts:99 | saving valid cards keeps the card table valid |
| Drop.SavedEffect | src/commands/drop.ts:99 | with distinct codes, save puts every card under its code, adds exactly those codes and leaves every other card as it was |
| Drop.DropAddsCards | src/commands/drop.ts:47-99 | a drop adds one unowned card per mapper, dropped by the user, under the code of its number, and changes no card it does not number |
| Drop.BuildCards | src/commands/drop.ts:66-97 | the card loop builds exactly the minted list |
| Drop.SaveAll | src/commands/drop.ts:99 | saving card by card gives the table save specifies |
| Drop.MintAndSave | src/commands/drop.ts:64-99 | the transaction body adds exactly the minted cards to the table |
| Drop.DropCards | src/commands/drop.ts:30-140 | numbers are allocated first; a blocked drop outside the test channel changes no card; otherwise the minted cards are saved and the cooldown consumed, except in the test channel |
| Use.ExtendedEffect | src/commands/use.ts:47-72 | a speedup runs until max(previous expiry, now) plus 6 hours, is active for the next 6 hours, and no other effect changes |
| Use.SpeedupHalvesDrop | src/services/timeout.ts:33-43 | for the 6 hours after a drop speedup is used, the Drop cooldown is halved |
| Use.SlotInRange | src/commands/use.ts:113 | the slot index for the rare mapper lies inside the list (or is 0 for an empty list) |
| Use.SuperdropHasRare | src/commands/use.ts:102-121 | a superdrop list holds at most 10 known mappers and at least one of rarity 40 or more; a list that already had one is kept; otherwise exactly one slot is replaced by the rare mapper; without one the draw fails |
| Use.SuperdropNumbering | src/commands/use.ts:127-157 | the sequence advances by exactly 10 even on failure; a successful superdrop yields 1 to 10 codes, those of the allocated numbers in order |
| Use.RunSuperdrop | src/commands/use.ts:99-194 | the superdrop writes exactly the cards and sequence SuperdropOutcome specifies |
| Use.UseItem | src/commands/use.ts:27-97 | with none held or an unusable item nothing changes; a speedup extends the effect and spends one; a superdrop spends one only if it succeeds |
| Gamble.Repeat | src/commands/gamble.ts:207 | `symbol.repeat(count)` has count copies of the symbol |
| Gamble.Tally | src/commands/gamble.ts:193-198 | counting one more symbol raises exactly its count by one and keeps the keys distinct |
| Gamble.Counts | src/commands/gamble.ts:190-201 | the tally of a spin has distinct keys |
| Gamble.CountsCorrect | src/commands/gamble.ts:190-201 | each counted symbol's count is its number of occurrences in the spin; every reel symbol is counted; the counts sum to the number of reels |
| Gamble.CountCombos | src/commands/gamble.ts:190-201 | the counting loop computes the tally of the spin |
| Gamble.CalculateMultiplier | src/commands/gamble.ts:203-213 | the loop sums the table value of each symbol repeated by its count |
| Gamble.UniformPart | src/commands/gamble.ts:163-184 | the single-symbol entries of the combo table |
| Gamble.MixedCombosInert | src/commands/gamble.ts:203-213 | table keys that mix symbols never contribute to the multiplier |
| Gamble.MixedEntries | src/commands/gamble.ts:163-184 | the five mixed keys are entries of the combo table that no spin can reach |
| Gamble.ExampleSpins | src/commands/gamble.ts:163-213 | two gems and a star pay 0; three crowns pay 333; a clover and two cherries pay 5 |
| Gamble.Precheck | src/commands/gamble.ts:31-83 | a bet proceeds exactly when it is 1 to 100, the warning was not shown or was acknowledged, and the user holds the bet in gold; a bet below 1 is refused as too small and one above 100 as too large |
| Gamble.Net | src/commands/gamble.ts:101-110 | the gold change is never below −bet, and it is non-negative exactly when the multiplier is at least 1 or the bet is 0 |
| Gamble.Settle | src/commands/gamble.ts:103-111 | with too little gold at commit nothing changes; otherwise gold moves by the net winnings |
| Gamble.PlaceBet | src/commands/gamble.ts:25-111 | a refused bet changes nothing; otherwise the winnings are bet × the spin's multiplier and gold moves by the net |
| Wishlist.Without | src/commands/wishlist.ts:171 | removal never lengthens the list, leaves the mapper unlisted and keeps only existing entries |
| Wishlist.AddEntry | src/commands/wishlist.ts:89-132 | adding fails on a full list, an unknown mapper or a listed mapper, in that order; otherwise the entry is appended |
| Wishlist.AddKeepsValid | src/commands/wishlist.ts:89-132 | a successful add keeps the list at most 10 long, free of duplicates and holding only known mappers |
| Wishlist.RemoveEntry | src/commands/wishlist.ts:143-171 | removal succeeds exactly for a known, listed mapper, which is then unlisted and the list shorter |
| Wishlist.WithoutShorter | src/commands/wishlist.ts:171 | removing a listed mapper shortens the list |
| Wishlist.WithoutRemovesOne | src/commands/wishlist.ts:171 | in a duplicate-free list, removal deletes exactly the mapper's entry and keeps the others in order |
| Wishlist.WithoutUnlisted | src/commands/wishlist.ts:171 | removing an unlisted mapper changes nothing |
| Wishlist.RemoveKeepsValid | src/commands/wishlist.ts:139-176 | a successful removal keeps the list valid |
| Wishlist.AddThenRemove | src/commands/wishlist.ts:83-176 | adding a mapper and then removing it restores the list |
| Wishlist.WithoutAppended | src/commands/wishlist.ts:171 | removing a just-appended, previously unlisted mapper gives back the list before |
| Wishlist.Insert | src/commands/wishlist.ts:63 | inserting into a list ordered by creation keeps it ordered and adds exactly the entry |
| Wishlist.SortByCreation | src/commands/wishlist.ts:63 | the result is ordered by creation time and is a permutation of the entries |
| Wishlist.Show | src/commands/wishlist.ts:56-81 | an empty wishlist is an error; otherwise the entries are shown ordered by creation, as a permutation |
| Wishlist.SortedUnchanged | src/commands/wishlist.ts:63 | a list already in creation order is shown as stored |
| Wishlist.AddToWishlist | src/commands/wishlist.ts:83-137 | the add command writes exactly AddEntry's result for a mapper matching the name case-insensitively, and nothing on error |
| Wishlist.RemoveFromWishlist | src/commands/wishlist.ts:139-176 | the remove command writes exactly RemoveEntry's result, and nothing on error |
| Trade.Precheck | src/commands/trade.ts:27-102 | a trade passes the checks exactly for distinct users, unburned owned cards held by the initiator and the other user respectively, neither in a job slot |
| Trade.Delivered | src/commands/trade.ts:148-154 | the collector delivers only the participants' presses, never more than were made |
| Trade.DeliveredPrefix | src/commands/trade.ts:148-154 | a prefix of the presses delivers a prefix of the delivered presses |
| Trade.HandshakeVerdictCases | src/commands/trade.ts:146-194 | the trade proceeds exactly when the first two delivered presses are accepts by the two different participants; a lone participant pressing twice never completes it |
| Trade.Handshake | src/commands/trade.ts:146-194 | the two-press loop reaches the verdict of the delivered presses |
| Trade.SwapOwners | src/commands/trade.ts:256-262 | each card gets the other's owner and nothing else changes |
| Trade.SwapOwnersInvolution | src/commands/trade.ts:256-262 | swapping twice restores the cards |
| Trade.CommitTrade | src/commands/trade.ts:196-284 | the commit swaps exactly when both cards still exist unburned, are unassigned and are held by the same owners; otherwise nothing changes |
| Trade.RunTrade | src/commands/trade.ts:25-285 | the whole command changes cards only by swapping the two owners, and only after the checks and a completed handshake |
| TradeService.FindOffer | src/services/tradeService.ts:185-194 | the offer found is the first one by that user for that card or item |
| TradeService.RemoveAt | src/services/tradeService.ts:253-255 | deleting an offer leaves one fewer, all of them offers that were there before |
| TradeService.AppendOffer | src/services/tradeService.ts:107-116 | appending a new offer makes it the one found for its pair and leaves every other pair's offer |
| TradeService.UpdateOffer | src/services/tradeService.ts:196-201 | raising an offer's quantity changes only that pair's quantity |
| TradeService.RemoveOffer | src/services/tradeService.ts:246-256 | deleting a pair's offer leaves it with none and every other pair's offer in place |
| TradeService.SessionOf | src/services/tradeService.ts:41-51 | the session found for a user is one in which the user takes part; none is found only when there is none |
| TradeService.SessionOfUnique | src/services/tradeService.ts:41-51 | with no user in two sessions, a user's session is the only one naming them |
| TradeService.OpenSession | src/services/tradeService.ts:17-38 | opening a session for two free, distinct users keeps the one-session-per-user invariant |
| TradeService.CloseSession | src/services/tradeService.ts:53-66 | closing a session frees both participants |
| TradeService.OpenThenClose | src/services/tradeService.ts:12-66 | opening a session and cancelling it restores the sessions |
| TradeService.ActiveSession | src/services/tradeService.ts:41-51 | the lookup returns a session naming the user exactly when one exists |
| TradeService.StartSession | src/services/tradeService.ts:12-39 | self-trade, a busy user or a declined confirmation changes nothing; otherwise a session of the two users with no offers is added |
| TradeService.CancelSession | src/services/tradeService.ts:53-66 | cancelling removes the user's session, or fails and changes nothing when there is none |
| TradeService.CardOfferCheck | src/services/tradeService.ts:73-84 | a card may be offered exactly when it exists, is not burned and belongs to the user |
| TradeService.CardOfferAsWrittenRefusesOwner | src/services/tradeService.ts:73-84 | as written, addCard refuses every card, telling the owner of an unburned card that they do not own it |
| TradeService.WithCardOffer | src/services/tradeService.ts:94-116 | a card already offered by the user is refused; otherwise one offer of quantity 1 is appended |
| TradeService.CardOfferAdded | src/services/tradeService.ts:94-116 | an accepted card offer is offered exactly once, and every other pair keeps its quantity |
| TradeService.AddCard | src/services/tradeService.ts:68-118 | intended behaviour, not the code as written (which TradeService.CardOfferAsWrittenRefusesOwner models): addCard changes the user's session exactly as CardOfferCheck and WithCardOffer say, and nothing on error |
| TradeService.RemoveCard | src/services/tradeService.ts:120-150 | without a session the call fails and changes nothing; otherwise the user's offer of the card is gone, every other pair keeps its quantity, and the call resolves with no value whether or not an offer was deleted |
| TradeService.ItemOfferAdded | src/services/tradeService.ts:185-211 | adding q of an item raises exactly that pair's offered quantity by q |
| TradeService.ItemOfferFits | src/services/tradeService.ts:185-211 | adding a positive item offer keeps the session's offers well formed |
| TradeService.ItemOfferCheck | src/services/tradeService.ts:157-175 | an item offer is accepted exactly for a positive quantity of a known item the user holds |
| TradeService.RepeatedAdditionsExceedBalance | src/services/tradeService.ts:171-201 | each addition is checked alone, so repeated additions can offer more than the user holds |
| TradeService.AddItem | src/services/tradeService.ts:152-213 | addItem changes the user's session as WithItemOffer says, and nothing on error |
| TradeService.WithoutItemOffer | src/services/tradeService.ts:229-256 | removal fails for an item not offered or a quantity above the offer; a partial quantity lowers the offer; otherwise the offer is deleted |
| TradeService.ItemOfferRemoved | src/services/tradeService.ts:238-256 | a successful removal lowers that pair's quantity by the amount removed and touches no other pair |
| TradeService.AddThenRemoveItem | src/services/tradeService.ts:152-257 | removing exactly what was just added restores the offers |
| TradeService.ItemRemovalFits | src/services/tradeService.ts:238-256 | a successful removal keeps the session's offers well formed |
| TradeService.RemoveItem | src/services/tradeService.ts:215-258 | removeItem changes the user's session as WithoutItemOffer says, and nothing on error |
| TradeService.Parties | src/services/tradeService.ts:291-293 | the giver is the offering participant and the receiver is the other participant |
| TradeService.PartiesAsWritten | src/services/tradeService.ts:291-293 | as written, every offer is treated as given by user2 to user1 |
| TradeService.ApplyOfferTo | src/services/tradeService.ts:295-304 | a card offer never touches the ledger and an item offer never touches the cards |
| TradeService.ItemOfferMoves | src/services/tradeService.ts:301-304 | moving an item offer succeeds exactly when the giver holds the quantity; the giver loses it, the receiver gains it and no other balance moves |
| TradeService.OfferBroken | src/services/tradeService.ts:279-288 | an offer still holds exactly when its card is still the offering user's, or the user still holds the item quantity |
| TradeService.FirstBroken | src/services/tradeService.ts:278-289 | validation passes exactly when every offer still holds |
| TradeService.AsWrittenRejectsCardOffers | src/services/tradeService.ts:264-282 | as written, a session that holds any card offer can never be executed |
| TradeService.AsWrittenReversesUser1Offers | src/services/tradeService.ts:291-304 | as written, user1's item offer debits user2 and credits user1, the reverse of the intent |
| TradeService.ValidatedOffersApply | src/services/tradeService.ts:278-305 | once every offer passes validation, applying them all cannot fail |
| TradeService.ValidatedSessionExecutes | src/services/tradeService.ts:278-305 | a session whose offers all pass validation executes without error |
| TradeService.TradeConservesItems | src/services/tradeService.ts:291-305 | executing a trade keeps every balance non-negative, keeps the two participants' combined balance of every item and leaves every other user's balances alone |
| TradeService.ValidatedCardsOfferedOnce | src/services/tradeService.ts:278-289 | validated, distinct offers name each card once |
| TradeService.TradeMovesCards | src/services/tradeService.ts:291-300 | every offered card ends up with the counterparty, and no other card changes |
| TradeService.CheckOffers | src/services/tradeService.ts:278-289 | the validation loop reports the error of the first offer that no longer holds |
| TradeService.MoveOffer | src/services/tradeService.ts:291-304 | one pass of the apply loop writes what ApplyOffer says |
| TradeService.MoveItems | src/services/tradeService.ts:301-303 | an item offer debits the giver and then credits the receiver; the first change that fails is reported, and success leaves the ledger as the two changes in order do |
| TradeService.ExecuteTrade | src/services/tradeService.ts:260-309 | intended behaviour, not the code as written (which TradeService.AsWrittenRejectsCardOffers and TradeService.AsWrittenReversesUser1Offers model): a missing session or an offer that no longer holds changes nothing; otherwise every offer moves from its offering user to the other participant and the session is deleted |
| Jobs.ParseSlot | src/commands/jobs.ts:61 | a parsed slot's name is the option value |
| Jobs.SlotsExactly | src/commands/jobs.ts:71 | there are exactly four slots, a to d, each named once and parsed back from its name |
| Jobs.CheckAssign | src/commands/jobs.ts:163-200 | an assignment only ever binds the card getOwnedCard returns, and passes on its error |
| Jobs.CheckAssignCases | src/commands/jobs.ts:163-200 | assign succeeds exactly for an owned card that no slot holds, into a slot that is not running |
| Jobs.Bound | src/commands/jobs.ts:202-209 | the upserted row holds the new card, and an idle row stays idle |
| Jobs.AssignedCardInUse | src/commands/jobs.ts:174-209 | after an assign the card is in use, so assigning it again is refused, and no card sits in two slots |
| Jobs.Assign | src/commands/jobs.ts:151-219 | assign writes exactly the checked binding, or nothing |
| Jobs.StartJob | src/commands/jobs.ts:257-268 | a started job runs from now for its duration and keeps its card |
| Jobs.WorkedEffect | src/commands/jobs.ts:234-269 | work starts every idle slot of the user, leaves running and other users' rows alone and moves no card; working again finds all busy |
| Jobs.ScanSlots | src/commands/jobs.ts:234-250 | the scan finds whether the user has any row and exactly the user's idle slots |
| Jobs.StartSlots | src/commands/jobs.ts:252-269 | the update loop starts exactly the given slots |
| Jobs.Work | src/commands/jobs.ts:225-276 | no rows or all busy change nothing; otherwise every idle row is started and reported |
| Jobs.Resolve | src/commands/jobs.ts:293-348 | a job pays non-negative gold, and pays only on success |
| Jobs.ResolveEffect | src/commands/jobs.ts:293-348 | resolving changes only motivation and the mindblock date; motivation stays in [1, 10], never falls on success and never rises on failure; a new mindblock lasts 12 hours and leaves motivation at most 4 |
| Jobs.Hooked | src/entities/card.ts:61-71 | the hook changes only the burn value of a saved card |
| Jobs.ResolveAllEffect | src/commands/jobs.ts:278-369 | resolution never lowers a balance, raises only the gold of users whose rows are resolved, keeps the card table valid and leaves the cards of unresolved rows untouched |
| Jobs.ClearedEffect | src/commands/jobs.ts:371-382 | after clearing no row is finished, finished rows are idle with their cards kept, and no other row moves |
| Jobs.ResolveOne | src/commands/jobs.ts:293-348 | one pass of the resolution loop writes what ResolveJob says |
| Jobs.ResolveJobs | src/commands/jobs.ts:293-369 | the resolution loop writes what ResolveAll says |
| Jobs.ClearJobs | src/commands/jobs.ts:371-382 | the clearing loop leaves exactly the cleared rows |
| Jobs.UpdateJobs | src/commands/jobs.ts:278-384 | finished rows are resolved and then cleared; a row without a card rolls everything back |
| Jobs.RegeneratedEffect | src/commands/jobs.ts:386-413 | regeneration raises motivation by at most one, only for cards below 7 that are not mindblocked, never above 7, and changes nothing else |
| Jobs.RegenerateAll | src/commands/jobs.ts:397-402 | the loop over the cards gives the regenerated table |
| Jobs.UpdateMotivation | src/commands/jobs.ts:386-414 | the card table becomes the regenerated table |
| Upgrade.LatestOwnedCard | src/commands/upgrade.ts:45-57 | without a code, the card found is the user's unburned card with the latest creation time, or none when there is none |
| Upgrade.Quote | src/commands/upgrade.ts:60-77 | on the card found: 'Card not found' when there is none, then 'You do not own this card', then 'This card cannot be upgraded!' for a tier without a next tier; a quote exactly when all three pass, for that card at its tier's price (doubled for foil) |
| Upgrade.UpgradePrice | src/commands/upgrade.ts:77 | a foil card costs twice the plain price, which is never below the tier's price |
| Upgrade.PrepareUpgrade | src/commands/upgrade.ts:37-77 | the card found is the one under a non-empty code (burned or not), or otherwise the user's newest unburned card; the answer is Quote on that card, so a quote is given exactly when the card exists, is the user's and has a next tier |
| Upgrade.RolledTier | src/commands/upgrade.ts:178-187 | the new tier is the next tier, the current one, or the previous one |
| Upgrade.RolledTierCases | src/commands/upgrade.ts:178-187 | success is exactly a roll below the chance; a failure moves down only on the downgrade roll |
| Upgrade.DebitGoldRow | src/commands/upgrade.ts:189-194 | the gold update touches no other balance |
| Upgrade.DebitGoldRowCharges | src/commands/upgrade.ts:147-194 | after the balance check the price is charged exactly and no balance goes negative |
| Upgrade.CommitUpgrade | src/commands/upgrade.ts:135-196 | intended behaviour, not the code as written (which Upgrade.CommitOutcomeAsWritten and Upgrade.AsWrittenStopsWhereModelRolls model): the commit aborts for a card no longer the user's, stops on short gold or a top tier, and otherwise charges the quoted price and saves the rolled tier with its burn value |
| Upgrade.CommitAsWrittenNeverRolls | src/commands/upgrade.ts:136-176 | as written, no confirmed upgrade reaches the roll |
| Upgrade.AsWrittenStopsWhereModelRolls | src/commands/upgrade.ts:136-176 | wherever the intended commit rolls, the code as written stops with 'You cannot upgrade this card' |
| Upgrade.RunUpgrade | src/commands/upgrade.ts:32-219 | the quote is Quote on the card the lookup finds; a refusal or a cancel changes nothing; a confirmed quote (with the intended commit, see Upgrade.CommitUpgrade) charges the quoted price and saves the rolled tier when the user has the gold, and otherwise stops with nothing changed |
| Burn.Split | src/interaction-handlers/burn.ts:22 | `split` returns at least one piece |
| Burn.SplitNoSeparator | src/interaction-handlers/burn.ts:22 | a string without the separator is one piece |
| Burn.SplitAtSeparator | src/interaction-handlers/burn.ts:22 | splitting at a first separator gives the part before it, then the pieces after it |
| Burn.ParseBurnInverse | src/interaction-handlers/burn.ts:20-27 | parse recovers the decision and the code from every burn button id whose code has no ':' |
| Burn.CardCodesParse | src/commands/burn.ts:119-123 | every card code round-trips through the burn buttons |
| Burn.BurnCreditsEffect | src/interaction-handlers/burn.ts:73-81 | a confirmed burn raises gold by the burn value and the card's dust by its dust value, and no other balance moves |
| Burn.BurnedCardNotFound | src/services/cardService.ts:17-29 | a burned card is never found again, so it cannot be burned and credited twice |
| Burn.RunBurn | src/interaction-handlers/burn.ts:29-118 | refusals, a card in a job slot and a cancel change nothing; a confirm marks the card burned and pays the credits, or rolls everything back |
| Burn.CommitBurn | src/interaction-handlers/burn.ts:73-97 | the burn transaction either marks the card burned and leaves the ledger exactly as the two credits in sequence leave it, or leaves cards and ledger untouched and reports the failing credit's message |
| Buy.Pay | src/commands/buy.ts:91-110 | a successful payment keeps every balance non-negative |
| Buy.CostUnnamed | src/commands/buy.ts:91-110 | a price list that does not name an item charges nothing for it |
| Buy.PaySucceeds | src/commands/buy.ts:91-110 | with distinct price items, paying succeeds exactly when every balance covers its own price |
| Buy.PayEffect | src/commands/buy.ts:91-110 | a successful payment debits each item by what the list charges for it and leaves other users alone |
| Buy.Purchase | src/commands/buy.ts:24-112 | a non-positive quantity, an unknown shop item and a cancel are refused in that order; a confirmed purchase succeeds exactly when the payment does, and keeps every balance non-negative |
| Buy.PurchaseEffect | src/commands/buy.ts:89-112 | a purchase succeeds exactly when every price is covered; it then takes amount × quantity of each price item, gives quantity of the bought item, and moves no other balance |
| Buy.CostOfNamed | src/commands/buy.ts:91-110 | with distinct price items, each one costs exactly its own amount × quantity |
| Buy.BuyItem | src/commands/buy.ts:19-123 | the command writes the ledger Purchase specifies, or nothing |
| Buy.PayPrices | src/commands/buy.ts:91-110 | the debit loop leaves the ledger exactly as Pay does when every price is covered, and rolls back to the ledger it started from otherwise |
| Buy.DebitPrice | src/commands/buy.ts:92-109 | one price is debited by amount × quantity exactly when the balance covers it; otherwise the ledger is untouched |
| Buy.PayStep | src/commands/buy.ts:91-110 | a short balance stops the payment; a covered one debits that price and pays the rest of the list |

## Left out

- Discord I/O is not modelled: replies, embeds, rendered card images, button rows, message deletion timers and reminders.
- Event logging is not modelled (EventLogService and the console).
- Concurrency is not modelled. Each transaction is one atomic method; row locks and serializable isolation are what make that sound in the source.
- Time zones are not modelled: a calendar day is `now / 86_400_000`, i.e. UTC.
- Floating-point rounding is not modelled: `Math.*` calculations use exact reals.
- `Math.pow` in the success chance is the parameter `effortRoot`.
- The weighted SQL draws of drop and superdrop (`-LOG(RAND()) / …`) are not modelled. The mappers they return are parameters: at most `limit` known, undeleted mappers, plus a known mapper of rarity 40 or more for the superdrop's replacement.
- Gamble's `weightedRandom` and `softmax` are not modelled. The three reels are parameters, and the empty symbol that weightedRandom returns on its fall-through is the symbol `Blank`.
- Gamble combo keys are sequences of symbols, not the emoji strings of the source.
- Gamble's `gamblingWarningShown` write to the user row, and the 5-minute command cooldown of the gamble command, are not modelled. The warning prompt's outcome is a parameter.
- Drop's guild settings hint (a second transaction on GuildSettings) is not modelled. The cooldown duration text in replies is not modelled either.
- Jobs' `chatInputShow` is display only (the job board and total effort); it writes nothing and is not modelled. The outcome notifications of updateJobs are not modelled.
- Interaction timeouts (`awaitMessageComponent` with `time`) are not modelled. A press is a parameter. A buy prompt that times out is modelled as a cancel.
- User creation (`DiscordUserService.findOrCreate`) is not modelled. Users are their ids.
- CardIds.GetNextCardId: takes a `nat` count, since every caller passes 3, 5 or 10.
- CardCode.DecodeEncode: the round trip is proved only below 36^4 + 36^5. Above that, stringId drops digits and codes repeat; the function itself is modelled as written.
- Drop.MintedCards: the card id column is `char(4)` while five-symbol codes exist; the model stores the full code.
- Drop.SavedEffect: with repeated codes a later card overwrites an earlier one, as `save` does. The distinct-code case is proved only below 36^4 + 36^5.
- Wishlist.AddToWishlist: `getOne` may return any mapper matching the name case-insensitively. The model picks one nondeterministically.
- CardService.ToLower: lower-cases ASCII capitals only, a deliberate simplification. JavaScript's `toLowerCase` also maps non-ASCII capitals (U+212A KELVIN SIGN to 'k', 'Ä' to 'ä', and so on); the Unicode case mappings are left out.
- CardService.GetOwnedCard: the model lower-cases the code with ASCII-only ToLower; a code whose non-ASCII capitals `toLowerCase` would lower is looked up unlowered.
- Wishlist.AddToWishlist: the case-insensitive name match of SQL `LOWER` is modelled with ASCII-only ToLower; non-ASCII case mappings are left out.
- Wishlist.RemoveFromWishlist: the name lookup's `toLowerCase` is modelled with ASCII-only ToLower; non-ASCII case mappings are left out.
- Jobs.Work: the job durations (one hour shortened by effort and jitter) are the parameter `durations`.

## Findings

| source | as written | input that shows it | evidently intended | confidence | as-written member | corrected member |
|---|---|---|---|---|---|---|
| src/commands/upgrade.ts:136-167 | the commit reloads the card with the relations 'condition', 'owner' and 'mapper' only, then reads `condition.nextUpgrade` from it; that relation is not loaded, so the check at line 167 always stops the upgrade | any owner with enough gold confirming an upgrade of a Poor card | roll against the fresh tier's chance and move along its ladder | high, not executed | Upgrade.AsWrittenStopsWhereModelRolls | Upgrade.CommitUpgrade |
| src/services/tradeService.ts:73-84 | addCard loads the card without its owner relation, so `card.owner?.id !== user.id` is always true | the owner of an unburned card adding it to their session | refuse only cards the user does not own | high, not executed | TradeService.CardOfferAsWrittenRefusesOwner | TradeService.CardOfferCheck |
| src/services/tradeService.ts:264-282 | executeTrade loads `offers.card` without `card.owner`, so every card offer fails the ownership check | a session holding one valid card offer | validate card offers against their current owner | high, not executed | TradeService.AsWrittenRejectsCardOffers | TradeService.ValidatedSessionExecutes |
| src/services/tradeService.ts:291-293 | `offer.user === user1` compares two separately loaded objects, which is always false, so every offer flows from user2 to user1 | user1 offers 5 gold while both users hold at least 5 | the offering user gives to the other participant | medium, not executed | TradeService.AsWrittenReversesUser1Offers | TradeService.TradeConservesItems |

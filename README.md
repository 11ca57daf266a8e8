# Chivalry 2 ranked bot: match confirmation and coin ledger

This project is a Dafny model of the core of a Discord bot that runs ranked
Chivalry 2 play. It covers four areas:

- **Ranked matches of three kinds.**
  - A 1v1 duel (`submit_duel`), confirmed or denied with a reaction.
  - A 2v2 duo (`submit_duo`), on the duo team table of unordered player pairs.
  - A team LTS match (`submit_lts`), confirmed or cancelled through the two buttons of a `ConfirmLTS` view.

  A submission is guarded, waits for the other side, and changes the
  ledger only when it is confirmed:
  - ratings, through the ELO updates;
  - kills, deaths and match counters;
  - coins;
  - the history tables.
- **The coin economy.**
  - The singleton house account, credited by every purchase.
  - The house skim: after a confirmed duel the house pays both fighters a share of its balance.
  - The clown purchase, which toggles a clown emoji in a member's nickname.
  - The announcement purchase, which echoes a message to every guild that has the echo channel.
- **The LTS team registry**: registering a team, adding and removing roster members, renaming a team and leaving one.
- **The private-server listing**: the servers of the current-games document that have players.

Flavour of each part:

- Operations that change stored state are methods on two classes:
  - `Store.Database` holds ranked_players, duo_teams, house_account, duels and duos.
  - `LtsRegistry.League` holds lts_teams and lts_matches.

  Each method is specified against pure functions of the old state, and
  each keeps its class invariant `Valid()`:
  - a coin balance is never negative;
  - a player pair forms at most one duo team;
  - team names and owners are unique;
  - rosters are disjoint and hold no duplicates.
- The ConfirmLTS view is a class, `LtsMatch.ConfirmLts`, whose callbacks update its fields.
- Rating formulas, guards, reaction checks, string handling and the server listing are functions with lemmas.

The source's quirks are kept:

- **Ties.**
  - A duel tie goes to the opponent.
  - An LTS tie goes to the opposing team.
  - A duo tie counts as a loss for both teams.
- **The duo history row** always puts the submitting team in the winner columns.
- **The duel reaction check** is computed from the submitter's id, so a third-party submitter disables the initiator.
- **The duel deny message** names the initiator when the submitter, rather than user_to_verify, cancels with a cross.
- **Only the opposing roster can confirm an LTS match**, although the proposal's footer says the submitter's teammates can.
- **Registry gaps.**
  - LTS submission does not refuse a team reported against itself.
  - An LTS owner can remove themself from their own roster.
- **The reported house bonus** is the computed payout even when the house cannot cover it.
- **A failed duel history insert** is only logged; the rest is still applied.

Ties are accepted: the strict `>` comparisons give a tied duel to the
opponent and a tied LTS match to the opposing team, and a tied duo lowers
both teams.

External effects are parameters:

- **The expected-score curve** is a function `E` with `0 < E(a, b) < 1` and `E(a, b) + E(b, a) = 1`.
  - The logistic curve `1 / (1 + 10^((b - a) / 400))` has these two properties.
  - So do the LTS module's transformed ratings `10^(a/400) / (10^(a/400) + 10^(b/400))`.
- **Reactions and clicks** are the sequence of events delivered before the timeout. The end of the sequence stands for the timeout.
- **The outcome of the duel history insert** is a boolean.
- **The guilds** are their channel names.

Python's `round()` is modelled exactly, as round-half-even on a real.

Proved properties:

- The wait lemmas are proved by induction.
  - The wait ends with the first accepted reaction, or times out exactly when no reaction is accepted.
  - The view is decided by its first authorised click.
- The duo team lookup is symmetric.
- The registry invariant is preserved by every registry command.
- The clown toggle alternates.
- The server filter is order-preserving and idempotent.
- Coin conservation: a confirmed duel mints 6 coins, and every purchase moves exactly its price from the buyer to the house.
- The `LtsMatch.SubmitLts` loop carries the invariants that tie the live view object to the pure click semantics.

## Model

| member | source | states |
|---|---|---|
| `Common.RoundHalfEven` | lts.py:31-32 | round() of the LTS update gives an integer within one half of its argument, the even neighbour on a tie |
| `Common.RoundAtLeast` | lts.py:31-32 | a value at least an integer m rounds to at least m |
| `Common.RoundAtMost` | lts.py:31-32 | a value at most an integer m rounds to at most m |
| `Common.RoundOfInteger` | lts.py:31-32 | an integral value rounds to itself |
| `Elo.ExpectedScoreOfEquals` | bot.py:312 | between equal ratings the expected score is one half |
| `Elo.CalculateElo` | bot.py:301-315 | R + K(won/played - E): a full win raises the rating, a zero-win game lowers it, and between equal ratings the change is K(won/played - 1/2) |
| `Elo.DuelRatings` | bot.py:410-411 | the confirmed duel's two exact ratings: the winner rises, the loser falls, the changes sum to zero, and between equal ratings they are +16 and -16 |
| `Elo.DuoRatings` | bot.py:579-584 | a strictly higher score raises that team and lowers the other; a tie lowers both teams; with a winner the changes sum to zero |
| `Elo.LtsRatings` | lts.py:17-34 | the rounded LTS ratings: the winner gains between 0 and 32, the loser loses between 0 and 32, and between equal ratings the result is exactly +16 and -16 |
| `Elo.LtsEqualRatings` | lts.py:31-32 | between equal ratings round() receives the integral values R + 16 and R - 16 |
| `Economy.Credited` | coin.py:17-32 | a deposit adds the amount to the house balance; a missing house row is created at the initial 5.00 percent rate, and an existing row keeps its rate |
| `Economy.CreditHouse` | coin.py:17-32 | update_house_account_balance (also bot.py:1185-1200): the house becomes the credited house |
| `Economy.Payout` | bot.py:439 | the bonus round(balance * rate / 100) is non-negative for a positive balance and rate, and at most the exact share plus one half |
| `Economy.HouseSkim` | bot.py:432-443 | a payout is computed exactly when a house row has a positive balance and a positive rate (a missing row reads as 0, 0); it is paid exactly when the balance also covers twice the payout |
| `Economy.SkimmedHouse` | bot.py:440-443 | the house loses exactly twice the credit each player receives, keeps its rate, and a non-negative balance stays non-negative |
| `Economy.SkimPaidAtModerateRates` | bot.py:438-441 | at any rate up to 25 percent, the initial 5 included, a positive balance always covers the skim |
| `Economy.BonusReportedWhenSkimSkipped` | bot.py:445-450 | a house of 10 at a 100 percent rate reports a +10 bonus and pays nothing |
| `Economy.SkimHouse` | bot.py:432-443 | the skim on the database: both fighters get the skim credit, the house becomes the skimmed house, and the reported bonus is the payout |
| `Economy.Charge` | coin.py:47-61 | a buyer without a ranked row fails and one with fewer coins than the price is refused, with nothing changed in either case; a registered buyer with enough coins is always charged: the purse loses exactly the price and the house becomes the credited house |
| `Confirmation.Step` | bot.py:402 | one reaction on wait_for (a plain definition); what it promises is proved by `Confirmation.RunFromSettled` and `Confirmation.RunFromProposed` |
| `Confirmation.Run` | bot.py:402 | the proposal's status after the reactions delivered in order |
| `Confirmation.WaitFor` | bot.py:402 | wait_for always ends, resolved or timed out |
| `Confirmation.FirstAccepted` | bot.py:402 | the position of the first reaction the check accepts, with none accepted before it |
| `Confirmation.RunFromSettled` | bot.py:402 | a resolved or expired proposal ignores every later reaction |
| `Confirmation.RunFromProposed` | bot.py:402 | a waiting proposal is resolved by its first accepted reaction and stays waiting when none is accepted |
| `Confirmation.WaitForFirstAccepted` | bot.py:402 | wait_for yields the first accepted reaction, or the timeout when none is accepted |
| `Confirmation.ResolvedByAccepted` | bot.py:402 | the resolving reaction was delivered and accepted; the wait times out exactly when no reaction is accepted |
| `Duel.RetiredAmong` | bot.py:329-330 | the retired ids of the retirement query (a plain definition); `Duel.DuelGuard` proves what the guard does with them |
| `Duel.DuelGuard` | bot.py:323-339 | a duel goes ahead exactly when the two players differ and neither is retired; a self-duel is refused first, otherwise the retired ids are reported |
| `Duel.DuelMatchUp` | bot.py:346-347 | the initiator wins exactly when their score is strictly higher, so a tie goes to the opponent; each fighter keeps their own score, and the winner's is the larger |
| `Duel.UserToVerify` | bot.py:373 | the player the proposal asks is always one of the two fighters, and when a fighter submitted it is the other fighter, the same one the reaction check treats as the non-submitter |
| `Duel.NonSubmitter` | bot.py:393 | always one of the two fighters, and never the submitter when the fighters differ; when a fighter submitted, the submitter and the non-submitter are the two fighters |
| `Duel.DuelCheck` | bot.py:390-399 | the reaction check itself: on the proposal message, the non-submitter's tick or cross and the submitter's cross |
| `Duel.DenialNamed` | bot.py:474 | the player a deny message names: the reactor when they are user_to_verify, and the initiator otherwise |
| `Duel.DenialNaming` | bot.py:373-474 | for an accepted cross, the message names its reactor exactly when the initiator submitted or the reactor is user_to_verify; otherwise it names the initiator, who did not react |
| `Duel.DenialMisattributed` | bot.py:474 | when the opponent submits and cancels with a cross, the reaction is accepted and the message says the initiator denied |
| `Duel.DuelCheckAuthorisation` | bot.py:390-399 | only a tick or a cross on the proposal counts: the non-submitter may confirm or deny, the submitter may only deny, and anyone else is ignored |
| `Duel.SubmitterNeverConfirms` | bot.py:390-399 | the submitter's own tick can never confirm the duel |
| `Duel.ThirdPartySubmitterQuirk` | bot.py:373-399 | with a third-party submitter the proposal asks the initiator, whose reactions are then all ignored, while the opponent's tick confirms |
| `Duel.Fought` | bot.py:421-430 | a fighter gains their score as kills, the other score as deaths, one match, the coin credit and the new rating; nothing else changes |
| `Duel.SettledPlayers` | bot.py:421-443 | ranked_players after a confirmed duel with the skim credit paid to both fighters |
| `Duel.SettledPlayersEffect` | bot.py:421-443 | the fighters' kills and deaths swap, each plays one more match and gets 3 coins plus the skim, the winner's gain is the loser's loss, and no other player changes |
| `Duel.EqualRatingsSettle` | bot.py:410-426 | between equally rated fighters the winner gains exactly 16 and the loser loses exactly 16 |
| `Duel.RecordedSubmitter` | bot.py:416 | the submitter in the duels row is the winner if the winner submitted, and otherwise the loser, a third-party submitter included |
| `Duel.ApplyConfirmedDuel` | bot.py:403-471 | if either fighter has no ranked row, nothing changes; otherwise the players become the settled table, the house is skimmed, and the duels row is appended when the insert succeeds |
| `Duel.SkimAfterReward` | bot.py:429-443 | paying the skim credit after the flat reward gives the settled table |
| `Duel.SubmitDuel` | bot.py:318-493 | a guard refusal, a deny, a timeout or an unregistered fighter changes nothing; a cross denies and records both its reactor and the player the deny message names (`Duel.DenialNamed`); a tick is reported unregistered exactly when a fighter has no ranked row, and otherwise applies the settled duel: both ratings in the outcome, the settled players, the skimmed house and the duels row when the insert succeeds |
| `Duel.DuelCoinConservation` | bot.py:429-443 | a confirmed duel mints exactly 6 coins; any skim moves from the house to the fighters |
| `Duo.FindDuoTeam` | bot.py:590-593 | the first team of the unordered pair, with no earlier team of that pair, or none when no team has the pair |
| `Duo.FindDuoTeamSymmetric` | bot.py:590-593 | the lookup ignores the order of the two players |
| `Duo.FindAfterAppend` | bot.py:605-609 | inserting a team for a new pair makes that row the one found |
| `Duo.FindAfterAppendOther` | bot.py:605-609 | inserting a team leaves the lookup of every other pair as it was |
| `Duo.DistinctPairsDistinctTeams` | bot.py:658-659 | the teams of two disjoint pairs are different rows |
| `Duo.NameFragment` | bot.py:600-601 | the first four characters of a display name, or "Unk" for an empty one |
| `Store.DisplayName` | bot.py:128-134 | the display name used for team names: the game name if set, else the common name, and "Unknown Player" without a row |
| `Duo.NewDuoTeam` | bot.py:595-609 | a new team holds the two players in order, is named from both names' fragments, starts at 1500, and has played no match |
| `Duo.WithTeam` | bot.py:587-616 | the table once a pair has a team: the old table for a known pair, the old table plus the pair's new team otherwise; the pair is then found |
| `Duo.WithBothTeams` | bot.py:658-659 | the table after the submitting pair's lookup and then the enemy pair's |
| `Duo.CheckOrCreateDuoTeam` | bot.py:587-616 | afterwards the pair's lookup finds the returned id and the table is WithTeam of the old one: a known pair leaves it as it was, and a new pair appends exactly its new team, which has played no match |
| `Duo.AppendKeepsPairsUnique` | bot.py:605-609 | inserting a team only for a pair without one keeps pairs unique |
| `Duo.BothTeamsExist` | bot.py:658-659 | after both lookups both pairs have a team and they are different rows; two known pairs leave the table as it was |
| `Duo.BothTeamsAppended` | bot.py:658-659 | both lookups only append: at most two rows, each the new team of one of the pairs |
| `Duo.DuoGuard` | bot.py:637-652 | a duo goes ahead exactly when the four players are distinct and none is retired; duplicates are refused first |
| `Duo.FourDistinct` | bot.py:638-639 | four ids form a set of four exactly when they are pairwise distinct |
| `Duo.DuoCheckAuthorisation` | bot.py:679-693 | only a tick or a cross on the proposal counts: an enemy may confirm or deny, the submitting team may only deny, and anyone else is ignored |
| `Duo.DuoCheck` | bot.py:679-693 | the reaction check itself: on the proposal message, an enemy's tick or cross and the submitting team's cross |
| `Duo.OnlyEnemiesConfirm` | bot.py:679-697 | a confirming tick always comes from one of the two enemies |
| `Duo.Played` | bot.py:704-706 | a team gets its new rating, one more match, and keeps its players and name |
| `Duo.ApplyConfirmedDuo` | bot.py:700-723 | both teams get the duo ratings and one more match; the duos row has the submitting team in the winner columns |
| `Duo.PlayersKeepPairs` | bot.py:704-706 | changing only ratings and match counts keeps pairs unique |
| `Duo.DuoRowWinnerQuirk` | bot.py:722-723 | when the enemies win, the duos row still names the submitting team as winner, with the lower score |
| `Duo.SubmitDuo` | bot.py:623-775 | a refused duo changes nothing; otherwise the table first becomes WithBothTeams of the old one, so both pairs have a team, and a deny or a timeout leaves it there; only an enemy's tick rates both teams with the duo ratings of their stored ratings, adds one match each, and appends the duos row |
| `Duo.AwaitDuoConfirmation` | bot.py:677-723 | with both teams in place: a timeout or a deny changes nothing; only an enemy's tick rates both teams with the duo ratings of their stored ratings, adds one match each, keeps both lookups, and appends the duos row |
| `Duo.CheckOrCreateBothTeams` | bot.py:658-659 | the table becomes WithBothTeams of the old one: it only grows, every new row has played no match, and the two teams are distinct rows found by their pairs |
| `Duo.FindUnderPlayed` | bot.py:704-706 | updating ratings and match counts leaves every pair's lookup as it was |
| `Coin.ActionFor` | coin.py:54 | the emoji test of the clown command (a plain definition); `Coin.ActionToggles` proves the toggle |
| `Coin.RemoveAll` | coin.py:68 | replace(emoji, ""): no emoji remains, every other character keeps its multiplicity, and the length drops by the number of emojis |
| `Coin.RemoveAllConcat` | coin.py:68 | removal works piecewise over a concatenation, so the kept characters stay in their order |
| `Coin.StripLeft` | coin.py:68 | only leading whitespace is removed, up to the first character that is not whitespace |
| `Coin.StripRight` | coin.py:68 | only trailing whitespace is removed, back to the last character that is not whitespace |
| `Coin.Strip` | coin.py:68 | strip(): the result is a slice of the input with only whitespace outside it, and it neither starts nor ends with whitespace |
| `Coin.NewNickname` | coin.py:68 | clowning puts the emoji and a space before the name; declowning gives exactly the name with every emoji removed and then stripped, a nickname without an emoji, shorter by at least the emojis removed, that neither starts nor ends with whitespace |
| `Coin.RemoveAbsent` | coin.py:68 | removing a character that does not occur changes nothing |
| `Coin.DeclownUndoesClown` | coin.py:68 | declowning a clowned emoji-free name gives back the name, stripped |
| `Coin.ActionToggles` | coin.py:54-68 | a clowned nickname is declowned next time, and a declowned one is clowned next time |
| `Coin.BuyClown` | coin.py:34-97 | the clown purchase, at the 50 coins of coin.py or the 25 of bot.py:1116-1178: refused without a ranked row or with too few coins, and otherwise always charged, the house becoming the credited house and the action decided from the target's display name |
| `Coin.EchoChannelName` | coin.py:118 | the echo channel choice (a plain definition); `Coin.BuyAnnouncement` states which guilds receive the echo |
| `Coin.GuildsWithChannel` | coin.py:131-135 | the number of guilds with a text channel of that name is at most the number of guilds |
| `Coin.GuildsWithChannelExtremes` | coin.py:131-135 | every guild is reached exactly when every guild has the channel, and none exactly when none has it |
| `Coin.CountEchoChannels` | coin.py:131-135 | the channels_sent_to loop counts the guilds with the echo channel |
| `Coin.BuyAnnouncement` | coin.py:99-156 | no ranked row or fewer than 10 coins: nothing is charged or sent; otherwise always charged, 10 coins move to the credited house, and the count is the guilds with the echo channel |
| `LtsRegistry.FindTeam` | lts.py:40 | the first team meeting a lookup criterion, or none when no team meets it |
| `LtsRegistry.TeamOf` | lts.py:411-435 | get_team_of_player: a team whose roster holds the player, or none when no roster does |
| `LtsRegistry.TeamOfUnique` | lts.py:411-435 | with disjoint rosters the player's team is the one roster holding them |
| `LtsRegistry.TeamNamedUnique` | lts.py:40 | with unique names the lookup by a team's name finds that team |
| `LtsRegistry.RemoveFirst` | lts.py:142 | list.remove: one element shorter, with exactly one occurrence of the player gone |
| `LtsRegistry.RemoveFirstFromDistinct` | lts.py:142 | from a roster without duplicates the player is gone entirely, everyone else stays, and there are still no duplicates |
| `LtsRegistry.League.constructor` | lts.py:53-57 | an empty registry that satisfies the invariant, with the column default rating for new teams |
| `LtsRegistry.League.RegisterTeam` | lts.py:36-66 | refused for a taken name, then for a caller who owns or is on a team; otherwise one team is appended with the caller as its owner and only member |
| `LtsRegistry.League.ChangeRoster` | lts.py:110-146 | refused without a player, then for a caller who owns no team; add refuses a player on any roster and appends otherwise; remove deletes a present player (the owner included); only the owner's team changes |
| `LtsRegistry.League.RenameTeam` | lts.py:149-174 | refused when any team has the new name, the caller's own included, then when the caller owns no team; otherwise only the owned team's name changes |
| `LtsRegistry.League.LeaveTeam` | lts.py:176-211 | an owner cannot leave; a player on no roster is refused; otherwise only the caller leaves the roster holding them |
| `LtsRegistry.AppendPreserves` | lts.py:53-57 | registering with a fresh name and a fresh owner-member keeps the registry invariant |
| `LtsRegistry.AddPreserves` | lts.py:127-134 | adding a player who is on no roster keeps the invariant |
| `LtsRegistry.RemovePreserves` | lts.py:141-143 | removing a roster member keeps the invariant |
| `LtsRegistry.RenamePreserves` | lts.py:165 | renaming to a name no team has keeps the invariant |
| `LtsMatch.Clicked` | lts.py:257-283 | one button click on the view (a plain definition); its effect is proved by `LtsMatch.DecidedByFirstAuthorised` and `LtsMatch.ViewOutcome` |
| `LtsMatch.Authorised` | lts.py:257-283 | the clicks the view acts on: Confirm from the opposing roster, Cancel from either roster |
| `LtsMatch.AfterClicks` | lts.py:257-309 | the view's fields after the clicks made before the timeout, a stopped view receiving no more callbacks |
| `LtsMatch.FirstAuthorised` | lts.py:257-283 | the position of the first click the view acts on |
| `LtsMatch.DecidedByFirstAuthorised` | lts.py:257-283 | the view ends as its first authorised click leaves it, or undecided when no click is authorised |
| `LtsMatch.ViewOutcome` | lts.py:257-283 | only an opposing-roster Confirm confirms; a cancel records a canceller from either roster; the view stays undecided exactly when no click is authorised |
| `LtsMatch.ConfirmLts.constructor` | lts.py:243-250 | a view over both rosters, undecided and running |
| `LtsMatch.ConfirmLts.ConfirmClicked` | lts.py:257-269 | confirm_button_callback updates the view's fields as a Confirm click does |
| `LtsMatch.ConfirmLts.CancelClicked` | lts.py:271-283 | cancel_button_callback updates the view's fields as a Cancel click does |
| `LtsMatch.Rated` | lts.py:332-333 | a team gets its new rating, one more match, and one more win or loss; nothing else changes |
| `LtsMatch.RecordResult` | lts.py:332-333 | the winner's update first, then the loser's, on the registry, which keeps its invariant |
| `LtsMatch.RatedPreserves` | lts.py:332-333 | rating a team keeps the registry invariant |
| `LtsMatch.RecordedBetweenTwoTeams` | lts.py:332-333 | with two different teams: the winner gets a win, the loser a loss, both a match and their rating; no other team changes |
| `LtsMatch.RecordedAgainstItself` | lts.py:289-333 | a team reported against itself gets a win, a loss, two matches, and ends with the loser's rating |
| `LtsMatch.LtsWinner` | lts.py:314-319 | the submitting team wins only with a strictly greater score, so a tie goes to the opposing team; the winner's score is the larger |
| `LtsMatch.TimedOutNoticeUnreachable` | lts.py:311-399 | as written, the time-out notice is never sent, and a view that timed out gets the unexpected-error notice |
| `LtsMatch.NoticeAsWritten` | lts.py:311-399 | the notice as lts.py sends it, with the time-out branch nested inside the decided test |
| `LtsMatch.Notice` | lts.py:311-399 | the intended notice: an undecided view times out, and there is no unexpected-error notice |
| `LtsMatch.NoticeAgreesWhenDecided` | lts.py:311-395 | on every confirmed or cancelled view the intended notice is the notice as written |
| `LtsMatch.SubmitLts` | lts.py:286-408 | refused exactly when a player is on no roster; only a confirmed view rates both teams and writes the lts_matches row (opposing player as confirmer, purse 0); a cancel names its team; nothing else changes; the notice is the corrected one, equal to the notice as written on every decided view |
| `LtsMatch.StoppedViewIgnores` | lts.py:309 | once the view has stopped, later clicks change nothing |
| `PrivateServers.ExtractServers` | privateservers.py:20-26 | the games list of the document (a plain definition); `PrivateServers.ListServers` states the listing built from it |
| `PrivateServers.HasPlayers` | privateservers.py:49 | a server has players when its PlayerUserIds is present and non-empty |
| `PrivateServers.WithPlayers` | privateservers.py:49 | the servers with a non-empty PlayerUserIds, and only those |
| `PrivateServers.WithPlayersAppend` | privateservers.py:49 | the filter keeps order: filtering a concatenation concatenates the filtered parts |
| `PrivateServers.WithPlayersKeepsFiltered` | privateservers.py:49 | a list whose servers all have players is left unchanged |
| `PrivateServers.WithPlayersIdempotent` | privateservers.py:49 | filtering twice is filtering once |
| `PrivateServers.TagOr` | privateservers.py:57-59 | a tag's value or "Unknown" (a plain definition); `PrivateServers.ListServers` states the fields built from it |
| `PrivateServers.EntryOf` | privateservers.py:57-60 | one server's field (a plain definition); `PrivateServers.ListServers` states that the listing holds these fields for the first 25 servers with players, in order |
| `PrivateServers.Entries` | privateservers.py:56-60 | one field per listed server, in order |
| `PrivateServers.ListServers` | privateservers.py:49-60 | "none found" exactly when no server has players; otherwise the count of all servers with players and the fields of the first 25, in order |

## Left out

- Discord I/O is not modelled: posting and editing messages and embeds, ephemeral replies, reaction clearing, audit-channel messages, and the per-guild echo of duel, duo, LTS and clown results. Only the announcement's channel count is kept.
- The per-guild nickname loop of the clown purchase is not modelled (fetching members, the manage_nicknames permission, swallowed Discord errors). Only the nickname it computes, `Coin.NewNickname`, is modelled.
- SQL, connections and transactions are not modelled. The row lock of the clown purchase and the ROLLBACK of submit_duo are left out. Each operation is modelled as running alone, without concurrency.
- Exceptions raised inside an operation, and the error replies they trigger, are not modelled (for example a failing UPDATE, or a NULL rating). The exceptions are:
  - a buyer with no ranked row, as `NoAccount`;
  - the failed duel history insert, as a boolean.
- Floating point is not modelled:
  - The logistic expected score is abstract, fixed only by its two properties.
  - Rating arithmetic is exact on reals.
  - The display rounding of rating changes is not modelled.
- Timeouts are not clocks: the end of the event sequence is the 3600-second reaction timeout or the 180-second view timeout.
- Discord ids and PlayFab ids are one kind of player id. The lookup from one to the other is registration, which is not part of this model. So is the behaviour of the duo lookup for an unregistered member.
- `Duo.SubmitDuo`: a member without a ranked row still gets a team, named from "Unknown Player". What the bot stores in `player1_id` for such a member is not modelled.
- `PrivateServers.EntryOf`: every server is assumed to have its Tags object. So is every Data section of a parsed document that is not an object.
- The LTS `if existing_team` tests take the row id's truth value. Database ids start at 1, so the model's 0-based team positions stand for them without that corner.
- The ChangeRoster branch "already in your team" (lts.py:136-137) cannot be reached, because a player on the owner's roster is found by the earlier lookup. The "not a member" branch of leaving (lts.py:203-204) cannot be reached for a similar reason. The model keeps the first branch, and leaves out the second, because its lookup guarantees membership.
- `LtsMatch.SubmitLts` returns the corrected notice (`LtsMatch.Notice`), not the one lts.py sends: on a view that timed out, lts.py replies with the unexpected-error message (see "## Findings"), while the model reports the time-out. On every decided view the two notices agree.
- The LTS team rating column default is not in the source. The `League` constructor takes it as a parameter. Duo teams start at 0 matches played, the column default.
- The following, outside the confirmation and ledger core, are not part of this model:
  - admin.py;
  - player registration, retirement and reactivation;
  - rank, tier and leaderboard queries;
  - the `list` action of the LTS roster (handle_list_action) and the LTS team listing;
  - reading the current-games file;
  - bot start-up.

## Findings

| source | as written | input that shows it | evidently intended | confidence | as-written member | corrected member |
|---|---|---|---|---|---|---|
| lts.py:311-399 | the time-out reply sits in the `else` of `if view.confirmed` inside `view.confirmed is not None`, so it can never run; a view that timed out has `confirmed` still None and takes the outer `else` | a view that times out with no authorised click: `NoticeAsWritten(None)` is the unexpected-error notice (`LtsMatch.TimedOutNoticeUnreachable`) | a timed-out view gets "No response from the opposing player. The match confirmation has timed out." | not executed | `LtsMatch.NoticeAsWritten` | `LtsMatch.Notice` |

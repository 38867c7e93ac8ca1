# Scoreboard tournament engine in Dafny

A model of the bracket and ranking engine of the scoreboard app (`App.js`):
how each game format seeds the roster, how a Swiss-style 1v1 tournament
moves from round to round, and how each format turns a finished game into a
result list of `(id, name, points, rank)` rows that the scoreboard adds to
the players' totals.

Everything is modelled on values. A React `setTournament` replaces the whole
state, so each handler is a function from the old tournament state to the new
one. Where the code works by a loop (the 1v1 pairing loop, the serpentine
`forEach`, `handleNextRound`'s `while`, the standings and rewind counters, the
`currentRank` loop of the 1v1 finish, the Mario Kart confirm and finish), the
model is a `method` with that loop, proved equal to a specification function.
The properties are proved about those functions.

Modules (one file each):

- `Wrappers`: `Option` and `Result`.
- `Sorting`: a stable insertion sort on a two-part key, which stands for each JavaScript `Array.sort` comparator the app uses.
- `Roster`: players, ranking by points or by entered score, and `scores[id] || 0`.
- `GameResults`: result rows, the fixed "rank i+1, points n−i" scale, `AddPoints`, and the scoreboard ledger.
- `Swiss`: 1v1 seeding, the winner toggle, the round gate, and recording matches.
- `SwissAdvance`: `handleNextRound`.
- `SwissStandings`: `standings` and `handleFinishTournament`.
- `SwissRewind`: `handleGoBack`.
- `TeamGame`, `FreeForAllGame`, `Serpentine`, `MarioKart`, `JustFu`: one module per remaining format.

## Model

| member | source | states |
|---|---|---|
| Roster.RankByPoints | App.js:1151 | the roster reordered by points, highest first: a permutation of the input, sorted |
| Roster.RankByPointsStable | App.js:1151 | players with equal points keep their roster order (the sort is stable) |
| Roster.RankByScore | App.js:664-669 | ranking by an entered-score map, a missing score counting as 0: a permutation, sorted by score |
| Roster.FindById | App.js:871 | `find` by id: present exactly when the id occurs, and then it is the first player with that id |
| Roster.ZeroScores | App.js:1180-1183 | the initial score map: exactly the roster's ids, each 0 |
| Sorting.SortBy | App.js:1151 | the sort: same length, a permutation, ordered by the key |
| Sorting.SortByStable | App.js:1151 | elements with equal keys keep their relative order |
| Sorting.StableSortUnique | App.js:1151 | a stable sorted permutation is unique, so the model's sort is the one the engine's stable sort yields |
| Sorting.SortByConstant | App.js:669 | when every key is equal the sort changes nothing |
| GameResults.Positional | App.js:671-678 | the fixed scale: row i has rank i+1 and points n−i, points strictly decreasing from n to 1, ids in list order |
| GameResults.GameTitle | App.js:214 | the trimmed title, or "Untitled Game" when it is empty: never empty, and a non-empty title is kept |
| GameResults.InitialPoints | App.js:184-191 | the point editor starts with each result row's points, one key per row id |
| GameResults.ConfirmTournament | App.js:207-208 | confirming a tournament result keeps every row and its rank and replaces only its points by the entered ones |
| GameResults.ConfirmUneditedKeepsResults | App.js:184-208 | confirming without edits returns the tournament's own results |
| GameResults.ConfirmManual | App.js:209-212 | manual entry: every roster player once, ranked 1..n by entered points, highest first |
| GameResults.ApplyEntriesAt | App.js:1083-1087 | applying a result to the ledger changes exactly the listed players that exist, by their points |
| GameResults.DeleteUndoesAdd | App.js:1081-1100 | deleting a game subtracts exactly what adding it added |
| Swiss.Enter | App.js:1160 | tournament players: the roster in order, each with 0 wins and no opponents |
| Swiss.Create1v1Tournament | App.js:1150-1162 | the pairing loop builds round 1 from the points-sorted roster |
| Swiss.FirstRoundSeats | App.js:1153-1159 | every player sits in exactly one first-round match, in ranked order |
| Swiss.FirstRoundBye | App.js:1154-1158 | match k is `R1M{k+1}`; a BYE exists iff the roster is odd, it is the last match and its winner is preset to p1; every other match starts undecided |
| Swiss.FindMatch | App.js:394 | the first match with the given id, or none |
| Swiss.SelectWinner | App.js:391-399 | selecting the recorded winner clears it, selecting anyone else sets it; no other match, round or player changes |
| Swiss.SelectWinnerTwice | App.js:391-399 | selecting the same player twice restores the tournament exactly when the match was undecided or already had that winner |
| Swiss.CeilLog2 | App.js:372 | the least k with 2^k ≥ n: the integer form of `ceil(log2 n)` |
| Swiss.RoundGate | App.js:573-575 | with completeness and the round total as App.js lines 371-372 define them: waiting iff some match is undecided; next round offered iff complete and 2^round < roster size; finish iff complete and 2^round ≥ roster size |
| Swiss.RecordAllAt | App.js:403-409 | after recording a round, each player's wins rise by the matches they won and their opponents gain the players they met |
| Swiss.ReplayAllDecided | App.js:485-495 | replaying a round whose matches all have winners is the same as recording it |
| SwissAdvance.NextRound | App.js:401-440 | the `while` loop over win groups equals `NextRoundSpec` |
| SwissAdvance.NextRoundSpec | App.js:401-440 | one round more, numbered one higher, the same players in the same order |
| SwissAdvance.NextRoundPlayers | App.js:403-409 | each player's new wins and opponents are exactly those of the completed round |
| SwissAdvance.NextRoundSeats | App.js:418-434 | every tournament player sits exactly once in the new round |
| SwissAdvance.NextRoundIds | App.js:422-433 | the new round's match k is `R{r+1}M{k+1}` |
| SwissAdvance.NextRoundLevels | App.js:411-434 | only players with equal wins meet, and win groups are paired from most wins down |
| SwissAdvance.PairGroupShape | App.js:422-433 | in each win group the only BYE is the last match of an odd group, with its winner preset |
| SwissAdvance.PairGroupHead | App.js:428-431 | a player meets the first group member not yet played, and a rematch happens only when all have been played |
| SwissAdvance.PairGroupRematches | App.js:421-431 | for every match of a group's pairing, not only the first: its first seat is a group member, and a rematch happens only when that member has met everyone seated after it in the group |
| SwissAdvance.NextRoundRematches | App.js:418-432 | in the whole new round: every match's first seat is a player, and a rematch happens only when that player has met everyone of its win count seated after it |
| SwissAdvance.Shuffled | App.js:420-421 | the shuffle yields a permutation of the win group |
| SwissAdvance.Levels | App.js:411-419 | the distinct win totals, strictly descending |
| SwissStandings.Standings | App.js:374-389 | the counting loops over all rounds equal `StandingsSpec` |
| SwissStandings.StandingsSpec | App.js:374-389 | one row per player, sorted by wins descending then losses ascending |
| SwissStandings.TallyAt | App.js:375-387 | each row holds the player's total wins and losses over every decided match |
| SwissStandings.LoserIsOtherSeat | App.js:378-384 | a loss is charged exactly to the other seat of a decided non-BYE match |
| SwissStandings.FinishTournament | App.js:442-474 | the `currentRank` loop equals `FinishSpec` |
| SwissStandings.FinishSpec | App.js:442-474 | rows in standings order, each with the rank `RankAt` gives its position, points = roster size − rank + 1 and the win/loss record |
| SwissStandings.RankCountsBetter | App.js:446-457 | a player's rank is one more than the number of players with a strictly better record |
| SwissStandings.RankTies | App.js:446-457 | two players share a rank iff their wins and losses are equal |
| SwissStandings.RankMonotone | App.js:446-457 | ranks never decrease down the standings |
| SwissStandings.FinishPointsRange | App.js:442-474 | every 1v1 result has points between 1 and the roster size, and the leader gets rank 1 and the full points |
| SwissRewind.GoBack | App.js:481-497 | the rewind loop equals `GoBackAsWritten` |
| SwissRewind.ReplayRounds | App.js:485-495 | the nested loops replay every decided match of the given rounds in order |
| SwissRewind.NextRoundConsistent | App.js:401-440 | advancing from a complete round keeps the players equal to a replay of the finished rounds |
| SwissRewind.SelectWinnerConsistent | App.js:391-399 | choosing winners keeps that invariant |
| SwissRewind.CreateConsistent | App.js:1160 | a new tournament satisfies it |
| SwissRewind.GoBackAsWrittenAfterNextRound | App.js:482-497 | advancing then rewinding restores the rounds but leaves the re-opened round recorded in the players |
| SwissRewind.GoBackAsWrittenDoubleCounts | App.js:482-497 | Ann beats Ben in round 1; advancing, rewinding and advancing again credits Ann 2 wins |
| SwissRewind.GoBackCorrectedUndoesNextRound | App.js:482-497 | the corrected rewind undoes advancing exactly |
| SwissRewind.GoBackCorrectedConsistent | App.js:482-497 | the corrected rewind keeps the invariant |
| TeamGame.CreateTeamBasedGame | App.js:1164-1177 | team A takes the even positions and team B the odd positions of the points-sorted roster; both scores start at 0 |
| TeamGame.TeamSplit | App.js:1164-1175 | the teams partition the roster, A has the same size as B or one more, and each A seat has at least the points of the B seat beside it |
| TeamGame.RoundHalfUp | App.js:609 | `Math.round` of the exact quotient: the nearest integer, halves rounded up, for either sign of the divisor |
| TeamGame.TeamFinish | App.js:595-616 | zero top score gives the tie list at 0 points; otherwise the winners get the total at rank 1 and the losers the rounded share at rank \|winners\|+1 |
| TeamGame.TeamFinishCoversTeams | App.js:595-616 | every player of both teams gets exactly one row |
| TeamGame.LoserPointsBounds | App.js:596-609 | with non-negative scores the losers' share lies between 0 and the total, is the total when tied and 0 when they scored 0 |
| TeamGame.LoserPointsFull | App.js:596-609 | the losers get the full total exactly when (2·total − 1)·winning score ≤ 2·losing score·total, which also holds at some unequal scores (99 to 100 with four players) |
| TeamGame.EqualScoresFavourB | App.js:605-614 | on equal non-zero scores team B is listed first, and everyone gets the full points |
| TeamGame.RoundHalfUpExact | App.js:609 | an exact quotient rounds to itself |
| FreeForAllGame.CreateFreeForAllGame | App.js:1179-1191 | the roster as is, every score 0 |
| FreeForAllGame.FfaRanking | App.js:664-669 | players ranked by score, highest first: a permutation |
| FreeForAllGame.FfaFinish | App.js:663-681 | "Free For All" on the fixed scale over the ranking |
| FreeForAllGame.FfaFinishFair | App.js:663-681 | every player once, and a higher score always earns more points |
| FreeForAllGame.FfaUnscoredKeepsRosterOrder | App.js:664-669 | with no scores entered the result follows roster order |
| Serpentine.SnakeSlot | App.js:1202-1210 | the same deal as the Just Fu builder's (lines 1228-1235): the group of seat i: forward on even passes, backward on odd ones, always a valid group |
| Serpentine.SnakeDraft | App.js:1202-1213 | the `forEach` (also lines 1228-1239 of the Just Fu builder) push loop builds `Draft` |
| Serpentine.Draft | App.js:1199-1213 | k groups, group g holding the seats dealt to g in ranked order |
| Serpentine.SnakePass | App.js:1203-1210 | in each pass every group gets exactly one seat |
| Serpentine.SnakeTurn | App.js:1206-1210 | consecutive passes turn on the same group |
| Serpentine.DraftPartition | App.js:1202-1213 | the groups hold every ranked player exactly once |
| Serpentine.MembersIndex | App.js:1202-1213 | a player is in group g iff one of its seats is dealt to g |
| Serpentine.GroupsDisjoint | App.js:1202-1213 | with distinct ids no id is in two groups |
| Serpentine.FourGroupSizes | App.js:1199-1213 | 14 players in four groups give sizes 3, 3, 4, 4 |
| Serpentine.ThreeGroupSizes | App.js:1225-1239 | 14 players in three groups give sizes 5, 5, 4 |
| MarioKart.CreateMarioKartTournament | App.js:1193-1217 | any count other than 14 is refused; otherwise four snake groups of the points-sorted roster |
| MarioKart.CreateGroups | App.js:1193-1215 | the created groups partition the roster with sizes 3, 3, 4, 4 |
| MarioKart.Reorder | App.js:726-746 | a drag moves one player to the clamped drop index, keeping the others in order |
| MarioKart.ReorderUndo | App.js:726-746 | dragging it back restores the list |
| MarioKart.GroupSort | App.js:726-735 | reorders one group and nothing else |
| MarioKart.FinalsSort | App.js:737-746 | reorders one final and nothing else |
| MarioKart.FinalsSortKeeps | App.js:737-746 | a finals drag keeps every final's players as a multiset |
| MarioKart.ConfirmGroups | App.js:748-769 | the loop over groups equals `ConfirmGroupsSpec` |
| MarioKart.ConfirmGroupsSpec | App.js:748-769 | final k holds the k-th placed player of each group, in group order |
| MarioKart.ConfirmGroup | App.js:758-765 | one group: its positions are recorded and position k goes to final k |
| MarioKart.GroupRanksAt | App.js:757-766 | each group member's recorded group rank is its position + 1 |
| MarioKart.FinalsPartition | App.js:757-766 | the finals hold every group member exactly once |
| MarioKart.FinalsSizes | App.js:757-766 | groups of 3, 3, 4, 4 give finals of 4, 4, 4, 2 |
| MarioKart.PlaceFinal | App.js:775-778 | writing `finalRankings[offset + i]` equals `PlaceAll` |
| MarioKart.MarioKartFinish | App.js:771-789 | the four placement loops equal `MarioKartFinishSpec` |
| MarioKart.FinishPositional | App.js:771-789 | with finals of 4, 4, 4 and up to 4 the result is the fixed scale over the finals end to end |
| MarioKart.ConfirmThenFinish | App.js:748-789 | confirming then finishing without drags ranks the finals' columns |
| MarioKart.ReorderedDraft | App.js:726-769 | any drags within the created groups keep the sizes and the partition of the roster |
| MarioKart.TournamentCoversRoster | App.js:726-789 | with the groups built as lines 1193-1217 build them: from 14 players, whatever the group drags, 14 rows: every roster id once, rank i+1 and points 14−i |
| MarioKart.TournamentWithFinalsDrags | App.js:737-789 | the same with the finals dragged as well: any finals holding the confirmed finals' players, in any order, finish with 14 rows, every roster id once, rank i+1 and points 14−i |
| JustFu.CreateJustFuTournament | App.js:1219-1246 | any count other than 14 is refused; otherwise three snake groups of the points-sorted roster and all scores 0 |
| JustFu.CreatedGroupsWellFormed | App.js:1224-1239 | the created groups are non-empty, drawn from the roster and disjoint by id |
| JustFu.Found | App.js:871 | a group's members looked up in the roster: roster players with a group id, non-empty when any member is found |
| JustFu.GroupWinner | App.js:869-877 | a group has a winner iff some member is found, and it is the found member with the top score |
| JustFu.WinnersAt | App.js:869-878 | each non-empty group drawn from the roster puts its own winner in the same position |
| JustFu.WinnersDistinct | App.js:869-878 | winners of disjoint groups are distinct players |
| JustFu.FilterOut | App.js:881-882 | the filter keeps exactly the players whose id is not excluded |
| JustFu.ConfirmGroups | App.js:863-915 | championship = winners then the best three of the rest; silver = the next four and bronze = the four after; all final scores 0 |
| JustFu.LowerIsTail | App.js:881-898 | those outside the championship are exactly the rest after the wild cards |
| JustFu.SelectionPartition | App.js:869-898 | three distinct roster winners plus wild cards, silver and bronze hold each of 14 players exactly once |
| JustFu.FinalsPartition | App.js:863-898 | from well-formed groups of 14 distinct players, the three finals hold every player exactly once |
| JustFu.RankFinal | App.js:926-928 | each final ranked by its own scores: a permutation, sorted by score |
| JustFu.JustFuFinish | App.js:923-940 | "Just Fu Tournament" on the fixed scale over the three ranked finals end to end |
| JustFu.FinishCoversFinals | App.js:923-940 | every finalist gets exactly one row |
| JustFu.FinishChampionsFirst | App.js:930-936 | the championship finalists take ranks 1 to \|championship\| whatever the scores |
| JustFu.TournamentCoversRoster | App.js:863-940 | with the groups built as lines 1219-1246 build them: from 14 distinct players, whatever scores are entered, every roster id gets exactly one row |

## Left out

- Rendering, modals, drag refs, icons and all JSX are not modelled. Only the state the handlers compute is.
- The display-only bracket grouping (`getPlayerWinsBeforeRound`, `currentMatchesByBracket`) is presentation.
- Firestore, auth, rooms and local storage are remote I/O.
  - The ledger is an abstract map from id to total. Adding a game adds each existing player's points; deleting subtracts them.
- Score and point entry (`parseInt(value, 10) || 0`) is string parsing. Scores are already-parsed integers handed to the finish functions.
  - So the score-change handlers of the team, free-for-all and Just Fu screens are not separate operations.
- `trim()` of the game title and `localeCompare` of the name-sorted display are not modelled. The title is already trimmed; the display order is presentation.
- `new Date().toLocaleDateString()` in the 1v1 game name is a parameter `date`.
- `Math.random()` in the Swiss shuffle is an arbitrary draw map. Each win group is stably sorted by it, so every order of a group is reachable.
  - The real comparator is not even a uniform shuffle, and its distribution is not modelled.
- `Math.log2`/`Math.ceil` are floating point. They are replaced by the least k with 2^k ≥ n.
- `Math.round` of a floating-point quotient is replaced by exact rounding of the rational quotient. IEEE rounding of the division is not modelled.
- JavaScript aliasing is not modelled:
  - the shallow copy in `handleNextRound`;
  - `JSON` deep clones;
  - the `score` field added to player copies.
  The model updates values functionally.
- A roster player whose id is the literal `"bye"` would collide with the BYE seat. The model keeps the BYE as a separate seat kind, so that collision is not represented.
- `handleNextRound` pushes opponents for matches without a winner. The round gate makes that unreachable, so `SwissAdvance.NextRoundPlayers` is stated for what the code does, and the invariant lemmas assume a complete round.
- MarioKart.MarioKartFinish: a final with fewer than four players leaves holes in `finalRankings`.
  - The model keeps the array length the points count from, and skips the holes as `map` does.
  - It drops the holes from the result list, where JavaScript keeps them as holes in the returned array.
  - For 14 players there are none (`FinishPositional`).
- MarioKart.Reorder: the drop on a null target is not modelled. The drop index is clamped to the list as `splice` does.
- JustFu.RankFinal: a finalist missing from a final's score map counts as 0, where the code would sort on `undefined`. Every finalist comes from the roster whose ids initialise those maps, so this does not arise for an unchanged roster.
- JustFu.GroupWinner: the tie-break among equal top scores is the stable order of the group, as the code's stable sort gives. The contract states only that the winner has the top score.

## Findings

| source | as written | input that shows it | evidently intended | confidence | as-written member | corrected member |
|---|---|---|---|---|---|---|
| App.js:482-497 | "Edit Previous Round" pops the current round and rebuilds wins and opponents from every remaining round, including the one that becomes current again; starting the next round then records that round a second time | Ann beats Ben in round 1, start round 2, go back, start round 2 again: Ann has 2 wins | rebuild only from the rounds before the re-opened one, so going back exactly undoes starting the round | not executed | SwissRewind.GoBackAsWrittenDoubleCounts | SwissRewind.GoBackCorrectedUndoesNextRound |

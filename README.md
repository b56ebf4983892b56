# Swiss-system tournament core, modelled in Dafny

This project models `tournament/tournament.py`, the core of a small
Swiss-system tournament manager. The Python module keeps three PostgreSQL
tables: tournaments, players and matches. On top of them it registers
players, optionally under a named tournament, and records match results.
It computes standings ranked by wins, then matches played, then player id,
and it pairs the standings two at a time for the next round. When a pool
has an odd number of players, a sentinel player named `BYE` is inserted.
When a result names the bye as the winner, the two ids are swapped.

The database is replaced by an in-memory store, the class
`Store.TournamentStore`. Its fields are the three tables as sequences and
two serial-id counters that start at 1. Ids are handed out in increasing
order, and bulk deletes do not reset the counters. The queries are
functions over those sequences:

- `Registry`: tournament lookup by name.
- `Roster`: players in scope, counting, and name lookup.
- `Ledger`: win and match tallies, and the row a report stores.
- `Standings`: rows, ranking order and insertion sort.
- `Pairing`: the pair list and the pairing loop.

The operations that change the tables are methods of the class.
`Scenario` is a client that registers three entrants under one tournament
and checks their standings.

A tournament name means "no tournament" when Python's
`tournament and tournament.strip()` is false, that is, when every
character is whitespace as Python 3's `str.isspace` defines it
(`Records.IsBlank`); the model assumes the name is a Python 3 `str`.
With such a name, counting and standings range over every player,
whatever its TournamentId.

Where the code and its evident intent disagree, the model follows the
intent. The deviations are commented at each place in the Dafny:

- `tournamentId` is an undefined name at tournament.py:54, 96, 129 and 133.
  The model uses the looked-up `tournament_id`, which is absent when no
  tournament has the name.
- `name is 'BYE'` at tournament.py:158 and 165 compares the fetched row
  tuple by identity, so it is never true. The model compares the fetched
  name with `BYE`.
- The VALUES list at tournament.py:162 lacks a comma. The model stores the
  intended three columns.

As written, every call with a non-blank tournament name raises NameError
at tournament.py:96, so the code itself decides nothing about scoped
calls. The model makes these choices for them:

- `countPlayers` with a non-blank but unknown tournament name counts
  nothing: the model filters by `IN (NULL)`, which matches no row
  (`Scope.Within(None)`).
- `playerStandings` with a non-blank but unknown name then inserts no bye,
  because that count is 0. Its `tournament_id` is absent, so the model runs
  the unfiltered query and returns the standings of every player. The
  result is therefore guaranteed even only for a blank or known name.
- A per-tournament standings query counts only the matches that were
  reported under that tournament's id; the unfiltered query counts all
  matches. The tallies follow the doc comment at tournament.py:111-117.

`reportMatch` with an unknown winner id fetches no name, so the ids are
stored as passed. The code has no NotFound error path.

## Model

| member | source | states |
|---|---|---|
| Records.Strip | tournament/tournament.py:51 | `str.strip()`: the result is empty exactly when every character of the name is whitespace |
| Records.IsBlank | tournament/tournament.py:51 | the empty name (the default argument) means no tournament |
| Records.BlankIffStripsEmpty | tournament/tournament.py:51 | a name means no tournament exactly when `tournament and tournament.strip()` is false: it is empty or strips to nothing (the same test at lines 75, 123 and 156) |
| Registry.Lookup | tournament/tournament.py:91-96 | a tournament id is found exactly when some tournament has that exact name, and the id found is that tournament's |
| Registry.TournamentOf | tournament/tournament.py:122-124 | the `tournament_id` of a call is absent for a blank name and otherwise present exactly when the name is registered |
| Registry.LookupFindsRegistered | tournament/tournament.py:91-96 | with unique names, looking up a registered name yields that tournament's id |
| Registry.LookupAfterCreate | tournament/tournament.py:75-80 | after a tournament is created, names known before resolve as before, and the new name resolves to the new id |
| Registry.RegisteredAfterCreate | tournament/tournament.py:75-80 | creating a tournament only for an unregistered name, with the next id, keeps names unique and ids increasing |
| Registry.CountScope | tournament/tournament.py:51-56 | countPlayers sees every player under a blank name, and otherwise exactly the players whose TournamentId is the looked-up id (none when the name is unknown) |
| Registry.QueryScope | tournament/tournament.py:132-135 | the standings query sees every player and match when `tournament_id` is absent, and otherwise exactly those carrying that id |
| Roster.Pool | tournament/tournament.py:51-56 | the players a scoped query sees are exactly the stored players in that scope; the unfiltered scope sees all of them |
| Roster.CountPlayers | tournament/tournament.py:44-58 | the count is every player for a blank name, 0 for an unknown name, and for a registered name exactly the number of players carrying that tournament's id |
| Roster.PoolSize | tournament/tournament.py:51-56 | the rows a scoped query sees number exactly the stored players in that scope |
| Roster.PoolAppend | tournament/tournament.py:83-86 | a newly registered player joins the pool of exactly the scopes it belongs to, at the end |
| Roster.CountAfterJoin | tournament/tournament.py:44-58 | a name's count grows by one when a player of its scope registers and is otherwise unchanged |
| Roster.PoolIdsIncreasing | tournament/tournament.py:65-67 | a pool keeps the increasing order of the serial player ids |
| Roster.EnrolledAfterJoin | tournament/tournament.py:65-67 | a player inserted with the next serial id keeps ids increasing and below the counter |
| Roster.NameOf | tournament/tournament.py:153-155 | a name is fetched exactly when some player has that id, and it is that player's name |
| Roster.NameOfEnrolled | tournament/tournament.py:153-155 | with increasing ids, the name fetched for a player's id is that player's name |
| Roster.JoinNonEmptyScope | tournament/tournament.py:126-131 | a player inserted with the `tournament_id` of a name whose count is non-zero raises that count by exactly one |
| Roster.ByeEvensCount | tournament/tournament.py:125-131 | inserting one bye into the scope of an odd count makes that count even |
| Ledger.Wins | tournament/tournament.py:114 | a player's wins in a scope are at most the number of matches |
| Ledger.Played | tournament/tournament.py:115 | a player's matches played in a scope are at most the number of matches |
| Ledger.WinsAtMostPlayed | tournament/tournament.py:111-115 | no player has more wins than matches played |
| Ledger.TallyAppend | tournament/tournament.py:111-115 | one more match changes each player's wins and matches by that match's contribution only |
| Ledger.Recorded | tournament/tournament.py:153-170 | the stored row holds the two ids passed and the given tournament id; when the player fetched for the nominal winner is named BYE the ids are swapped (loser first), otherwise they are kept in order; a bye is stored as winner only when both players are byes |
| Ledger.RecordedAsWritten | tournament/tournament.py:156-170 | as written, a report is stored only under a blank name, and then always with the nominal winner first |
| Ledger.ByeStoredAsWinnerAsWritten | tournament/tournament.py:158-160 | as written, a bye reported as winner is stored as winner, where the intended row puts it second |
| Ledger.ScopedReportLostAsWritten | tournament/tournament.py:96 | as written, a report under a tournament name stores nothing, where the intended row carries the tournament id |
| Ledger.ReportTally | tournament/tournament.py:142-170 | after a report, both players have one more match in every scope of the match, and the win goes to the real player when the nominal winner is the bye |
| Standings.Rows | tournament/tournament.py:111-117 | one row per player of the pool, in pool order, each with that player's wins and matches |
| Standings.Ahead | tournament/tournament.py:133-135 | the ORDER BY Wins DESC, TotalMatches DESC, PlayerId is total: of two rows not in order, the second is strictly ahead; rows tied on wins and matches go by id |
| Standings.Insert | tournament/tournament.py:133 | inserting a row into ranked rows gives ranked rows holding the old rows and the new one |
| Standings.Sort | tournament/tournament.py:133-135 | the ranking is ordered by wins desc, matches desc, id asc and is a permutation of its input |
| Standings.SortCountId | tournament/tournament.py:133-135 | ranking neither adds nor drops any player's row |
| Standings.Ranked | tournament/tournament.py:132-136 | the standings are ordered by the query's ORDER BY, hold one row per player in scope, and are a permutation of the unordered rows |
| Standings.RankedRows | tournament/tournament.py:111-117 | every standings row belongs to a player in scope and carries its scoped wins and matches; every player in scope has its row |
| Standings.RankedOncePerPlayer | tournament/tournament.py:132-135 | with serial ids, each player in scope has exactly one row in the standings |
| Pairing.MakePair | tournament/tournament.py:195 | a pair seats its two entries, the higher-ranked first, as (id, name, id, name) |
| Pairing.Pairs | tournament/tournament.py:192-196 | the pairing of a ranked list has half its length, rounded down |
| Pairing.PairsAt | tournament/tournament.py:193-195 | pair i is made of the entries ranked 2i and 2i+1, as (id, name, id, name) |
| Pairing.PairsSeatEveryone | tournament/tournament.py:176-181 | the pairs seat every entry once, in ranked order; the last entry of an odd-length list is dropped |
| Pairing.PairUp | tournament/tournament.py:191-197 | the loop that takes two entries at a time from the front returns the pairing of the whole list |
| Store.TournamentStore.constructor | tournament/tournament.py:12-14 | a new store has empty tables and ids that start at 1 |
| Store.TournamentStore.DeleteMatches | tournament/tournament.py:17-23 | the matches table is cleared and nothing else changes |
| Store.TournamentStore.DeletePlayers | tournament/tournament.py:26-32 | the players table is cleared and nothing else changes |
| Store.TournamentStore.DeleteTournaments | tournament/tournament.py:35-41 | the tournaments table is cleared and nothing else changes |
| Store.TournamentStore.RegisterPlayer | tournament/tournament.py:61-88 | appends one player with the next id, carrying the tournament id exactly when the name is non-blank; creates the tournament only when the name is unknown, so names stay unique and a known name's id is reused |
| Store.TournamentStore.ReportMatch | tournament/tournament.py:142-172 | appends exactly one match row, the row of `Recorded`, and changes nothing else |
| Store.TournamentStore.PlayerStandings | tournament/tournament.py:99-139 | an odd count gets exactly one BYE in the same scope, an even count leaves the players unchanged, the count ends even, and the result is the ranked standings of the tournament or of everyone |
| Store.TournamentStore.SwissPairings | tournament/tournament.py:175-197 | pairs the global standings after bye injection: half as many pairs as players, every player seated exactly once in ranked order; only a bye is added to the store, and the player counter moves by exactly the players added |
| Store.TournamentStore.StandingsTwice | tournament/tournament.py:106-108 | two standings calls with nothing in between add exactly one BYE in the call's scope when the count was odd and nothing otherwise, leave tournaments and matches unchanged, and both return the ranked standings of that final store |
| Scenario.ThreeEntrantsCount | tournament/tournament.py:44-58 | three entrants of one tournament count 3 under its name |
| Scenario.RegisterThree | tournament/tournament.py:61-88 | three registrations under one new name create one tournament and three entrants of it |
| Scenario.ThreeEntrantsAndByeRanked | tournament/tournament.py:111-117 | three entrants and their bye rank as four rows with no wins or matches, one of them the bye |
| Scenario.ThreeEntrantsGetABye | tournament/tournament.py:125-136 | standings of three entrants gain a fourth row, the bye |

## Left out

- `connect`, cursors, `commit` and `close` (database I/O): the store object replaces the connection. Each operation is atomic because it is a single method call.
- SQL text, parameter formatting and the `player_standings` view's definition: only the ordering and the counting rule are modelled.
- `reportTournaments` (tournament.py:200-205): it is a raw select of every tournament row. The store's `tournaments` field is that list.
- Foreign keys and other constraints of the schema, which is not part of this model: reported ids are not checked against the players table.
- Concurrent callers, which could insert two byes: the module assumes serial use.
- Rematch avoidance: the code has none.
- With the name fixed, `tournament_id` is the fetched row, a one-element tuple, so tournament.py:129 and 133 bind correctly. At tournament.py:54 an unknown name passes `None`, and the query fails. The model counts 0 for an unknown name (`Scope.Within(None)`) and binds the looked-up id.
- The `player_standings` view, which is not part of this model: the tallies are the doc comment's wins and matches played, counted per tournament in a scoped query.
- The Python exceptions raised by the undefined name and the missing comma: the model follows the intended behaviour. Only `reportMatch` also has an as-written model (`Ledger.RecordedAsWritten`).

## Findings

| source | as written | input that shows it | evidently intended | confidence | as-written member | corrected member |
|---|---|---|---|---|---|---|
| tournament/tournament.py:158 | `name is 'BYE'` compares the fetched row tuple with a string by identity; this is never true, so the roles are never swapped (also line 165) | players (1, "BYE") and (2, "Ann"); `reportMatch(1, 2)` with a blank tournament name stores winner 1, the bye | compare the fetched name with "BYE" for equality and store winner 2, opponent 1 | not executed | Ledger.ByeStoredAsWinnerAsWritten | Ledger.Recorded |
| tournament/tournament.py:96 | `getTournamentId` returns the undefined name `tournamentId`, so every call with a non-blank tournament name raises NameError (lines 54, 129 and 133 have the same name) | `reportMatch(1, 2, "T1")` stores nothing | return the fetched tournament id | not executed | Ledger.ScopedReportLostAsWritten | Store.TournamentStore.ReportMatch |

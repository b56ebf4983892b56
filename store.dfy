/**
 * The tournament store: the three tables (tournaments, players, matches)
 * held in memory, with the id counters that hand out serial ids, and the
 * operations of the tournament module that change or query them.
 */
module Store {
  import opened Records
  import opened Registry
  import opened Roster
  import opened Ledger
  import opened Standings
  import opened Pairing

  class TournamentStore {
    var tournaments: seq<Tournament>
    var players: seq<Player>
    var matches: seq<Match>
    /** The next serial ids; bulk deletes do not reset them, like a SERIAL column's sequence. */
    var nextTournamentId: nat
    var nextPlayerId: nat

    /** Tournament names are unique and ids of both tables are handed out in increasing order. */
    ghost predicate Valid()
      reads this
    {
      Registered(tournaments, nextTournamentId) && Enrolled(players, nextPlayerId)
    }

    constructor ()
      ensures Valid()
      ensures tournaments == [] && players == [] && matches == []
      ensures nextTournamentId == 1 && nextPlayerId == 1
    {
      tournaments, players, matches := [], [], [];
      nextTournamentId, nextPlayerId := 1, 1;
    }

    /** deleteMatches: clear the matches table. */
    method DeleteMatches()
      requires Valid()
      modifies this
      ensures Valid()
      ensures matches == []
      ensures tournaments == old(tournaments) && players == old(players)
      ensures nextTournamentId == old(nextTournamentId) && nextPlayerId == old(nextPlayerId)
    {
      matches := [];
    }

    /** deletePlayers: clear the players table. */
    method DeletePlayers()
      requires Valid()
      modifies this
      ensures Valid()
      ensures players == []
      ensures tournaments == old(tournaments) && matches == old(matches)
      ensures nextTournamentId == old(nextTournamentId) && nextPlayerId == old(nextPlayerId)
    {
      players := [];
    }

    /** deleteTournaments: clear the tournaments table. */
    method DeleteTournaments()
      requires Valid()
      modifies this
      ensures Valid()
      ensures tournaments == []
      ensures players == old(players) && matches == old(matches)
      ensures nextTournamentId == old(nextTournamentId) && nextPlayerId == old(nextPlayerId)
    {
      tournaments := [];
    }

    /**
     * registerPlayer: add one player. Under a non-blank tournament name the
     * player carries that tournament's id, and the tournament is created
     * first when no tournament has that name; under a blank name the player
     * joins the global pool.
     */
    method RegisterPlayer(name: string, tournament: string)
      requires Valid()
      modifies this
      ensures Valid()
      ensures matches == old(matches)
      ensures IsBlank(tournament) || Lookup(old(tournaments), tournament).Some? ==>
                tournaments == old(tournaments) && nextTournamentId == old(nextTournamentId)
      ensures !IsBlank(tournament) && Lookup(old(tournaments), tournament).None? ==>
                && tournaments == old(tournaments) + [Tournament(old(nextTournamentId), tournament)]
                && nextTournamentId == old(nextTournamentId) + 1
      ensures !IsBlank(tournament) ==> TournamentOf(tournaments, tournament).Some?
      ensures players == old(players) + [Player(old(nextPlayerId), name, TournamentOf(tournaments, tournament))]
      ensures nextPlayerId == old(nextPlayerId) + 1
    {
      var tid: Option<nat> := None;
      if !IsBlank(tournament) {
        tid := Lookup(tournaments, tournament);
        if tid.None? {
          LookupAfterCreate(tournaments, Tournament(nextTournamentId, tournament), tournament);
          RegisteredAfterCreate(tournaments, nextTournamentId, tournament);
          tournaments := tournaments + [Tournament(nextTournamentId, tournament)];
          nextTournamentId := nextTournamentId + 1;
          tid := Lookup(tournaments, tournament);
        }
      }
      // With `tid` set the row carries the TournamentId column; otherwise it is left NULL.
      EnrolledAfterJoin(players, nextPlayerId, Player(nextPlayerId, name, tid));
      players := players + [Player(nextPlayerId, name, tid)];
      nextPlayerId := nextPlayerId + 1;
    }

    /**
     * reportMatch: record that `winner` beat `loser`, with the roles swapped
     * when the player fetched for `winner` is the bye, and with the
     * tournament's id when a non-blank tournament name is given.
     */
    method ReportMatch(winner: nat, loser: nat, tournament: string)
      requires Valid()
      modifies this
      ensures Valid()
      ensures tournaments == old(tournaments) && players == old(players)
      ensures nextTournamentId == old(nextTournamentId) && nextPlayerId == old(nextPlayerId)
      ensures matches == old(matches) + [Recorded(players, winner, loser, TournamentOf(tournaments, tournament))]
    {
      var name := NameOf(players, winner);
      // The source tests `name is 'BYE'` on the fetched row, which is never
      // true; the name is compared for equality here.
      if !IsBlank(tournament) {
        var tid := Lookup(tournaments, tournament);
        if name == Some(Bye) {
          matches := matches + [Match(loser, winner, tid)];
        } else {
          // The source's VALUES list lacks a comma here; the intended three-column insert is modelled.
          matches := matches + [Match(winner, loser, tid)];
        }
      } else {
        if name == Some(Bye) {
          matches := matches + [Match(loser, winner, None)];
        } else {
          matches := matches + [Match(winner, loser, None)];
        }
      }
    }

    /**
     * playerStandings: when the count of players for `tournament` is odd,
     * insert one player named BYE in that scope, so the count becomes even;
     * then return the ranked standings of the tournament when its id was
     * found, or of every player otherwise.
     *
     * The source passes the undefined `tournamentId` to the BYE insert and to
     * the scoped query; the looked-up `tournament_id` is modelled.
     */
    method PlayerStandings(tournament: string) returns (standings: seq<Standing>)
      requires Valid()
      modifies this
      ensures Valid()
      ensures tournaments == old(tournaments) && matches == old(matches)
      ensures nextTournamentId == old(nextTournamentId)
      ensures CountPlayers(old(players), tournaments, tournament) % 2 == 1 ==>
                && players == old(players) + [Player(old(nextPlayerId), Bye, TournamentOf(tournaments, tournament))]
                && nextPlayerId == old(nextPlayerId) + 1
      ensures CountPlayers(old(players), tournaments, tournament) % 2 == 0 ==>
                players == old(players) && nextPlayerId == old(nextPlayerId)
      ensures CountPlayers(players, tournaments, tournament) % 2 == 0
      ensures standings == Ranked(players, matches, QueryScope(TournamentOf(tournaments, tournament)))
      ensures IsBlank(tournament) || Lookup(tournaments, tournament).Some? ==>
                |standings| == CountPlayers(players, tournaments, tournament)
    {
      var tid: Option<nat> := None;
      if !IsBlank(tournament) {
        tid := Lookup(tournaments, tournament);
      }
      var count := CountPlayers(players, tournaments, tournament);
      if count % 2 != 0 {
        var bye := Player(nextPlayerId, Bye, tid);
        ByeEvensCount(players, tournaments, tournament, nextPlayerId);
        EnrolledAfterJoin(players, nextPlayerId, bye);
        players := players + [bye];
        nextPlayerId := nextPlayerId + 1;
      }
      standings := Ranked(players, matches, QueryScope(tid));
    }

    /**
     * swissPairings: the standings of the whole pool (after the bye is
     * inserted if the pool is odd) taken two at a time from the top. Every
     * player is seated exactly once, in ranked order.
     */
    method SwissPairings() returns (pairs: seq<Pair>)
      requires Valid()
      modifies this
      ensures Valid()
      ensures tournaments == old(tournaments) && matches == old(matches)
      ensures |old(players)| % 2 == 1 ==> players == old(players) + [Player(old(nextPlayerId), Bye, None)]
      ensures |old(players)| % 2 == 0 ==> players == old(players)
      ensures nextTournamentId == old(nextTournamentId)
      ensures nextPlayerId == old(nextPlayerId) + (|players| - |old(players)|)
      ensures pairs == Pairs(Ranked(players, matches, Everyone))
      ensures 2 * |pairs| == |players|
      ensures Seated(pairs) == Entries(Ranked(players, matches, Everyone))
      ensures forall p :: p in players ==> CountId(Ranked(players, matches, Everyone), p.id) == 1
    {
      var standings := PlayerStandings("");
      assert IsBlank("") && TournamentOf(tournaments, "") == None;
      assert standings == Ranked(players, matches, Everyone);
      pairs := PairUp(standings);
      PairsSeatEveryone(standings);
      assert |standings| == |players| && |players| % 2 == 0;
      assert standings[..|standings| - |standings| % 2] == standings;
      forall p | p in players ensures CountId(Ranked(players, matches, Everyone), p.id) == 1 {
        RankedOncePerPlayer(players, matches, Everyone, p);
      }
    }

    /**
     * Standings asked for twice with nothing registered or reported in
     * between: the second call inserts no further bye and returns the same list.
     */
    method StandingsTwice(tournament: string) returns (first: seq<Standing>, second: seq<Standing>)
      requires Valid()
      modifies this
      ensures Valid()
      ensures tournaments == old(tournaments) && matches == old(matches)
      ensures nextTournamentId == old(nextTournamentId)
      ensures |players| <= |old(players)| + 1
      ensures nextPlayerId == old(nextPlayerId) + (|players| - |old(players)|)
      ensures CountPlayers(old(players), tournaments, tournament) % 2 == 0 ==>
                players == old(players) && nextPlayerId == old(nextPlayerId)
      ensures players == old(players) +
                (if CountPlayers(old(players), tournaments, tournament) % 2 == 1
                 then [Player(old(nextPlayerId), Bye, TournamentOf(tournaments, tournament))] else [])
      ensures first == Ranked(players, matches, QueryScope(TournamentOf(tournaments, tournament)))
      ensures first == second
    {
      first := PlayerStandings(tournament);
      ghost var before := players;
      second := PlayerStandings(tournament);
      assert players == before;
    }
  }
}

/**
 * A client of the store: three players registered under one tournament,
 * then the standings of that tournament.
 */
module Scenario {
  import opened Records
  import opened Registry
  import opened Roster
  import opened Standings
  import opened Store

  /** Three entrants of tournament 1 make an odd count for its name. */
  lemma ThreeEntrantsCount(ps: seq<Player>, ts: seq<Tournament>)
    requires ts == [Tournament(1, "T1")]
    requires ps == [Player(1, "A", Some(1)), Player(2, "B", Some(1)), Player(3, "C", Some(1))]
    ensures CountPlayers(ps, ts, "T1") == 3
  {
    var a, b, c := Player(1, "A", Some(1)), Player(2, "B", Some(1)), Player(3, "C", Some(1));
    var sc := Within(Some(1));
    assert CountScope(ts, "T1") == sc by {
      assert "T1"[0] == 'T' && !IsSpace('T');
      assert Lookup(ts, "T1") == Some(1);
    }
    PoolAppend([], a, sc);
    assert Pool([a], sc) == [a];
    PoolAppend([a], b, sc);
    assert Pool([a, b], sc) == [a, b];
    PoolAppend([a, b], c, sc);
    assert Pool(ps, sc) == [a, b, c];
  }

  /** Registering A, B and C under "T1" creates one tournament and three entrants of it. */
  method RegisterThree() returns (store: TournamentStore)
    ensures fresh(store) && store.Valid()
    ensures store.tournaments == [Tournament(1, "T1")]
    ensures store.players == [Player(1, "A", Some(1)), Player(2, "B", Some(1)), Player(3, "C", Some(1))]
    ensures store.matches == [] && store.nextPlayerId == 4
  {
    store := new TournamentStore();
    assert !IsBlank("T1") by {
      assert "T1"[0] == 'T' && !IsSpace('T');
    }
    store.RegisterPlayer("A", "T1");
    assert store.tournaments == [Tournament(1, "T1")];
    LookupFindsRegistered(store.tournaments, 0);
    assert TournamentOf(store.tournaments, "T1") == Some(1);
    store.RegisterPlayer("B", "T1");
    assert store.tournaments == [Tournament(1, "T1")];
    store.RegisterPlayer("C", "T1");
  }

  /** The standings of the three entrants and their bye, before any result is reported. */
  lemma ThreeEntrantsAndByeRanked(entrants: seq<Player>, ts: seq<Tournament>)
    requires ts == [Tournament(1, "T1")]
    requires entrants == [Player(1, "A", Some(1)), Player(2, "B", Some(1)), Player(3, "C", Some(1))]
    ensures var r := Ranked(entrants + [Player(4, Bye, Some(1))], [], Within(Some(1)));
            && |r| == 4
            && (forall s :: s in r ==> s.wins == 0 && s.matches == 0)
            && (exists s :: s in r && s.name == Bye)
  {
    var bye := Player(4, Bye, Some(1));
    var ps := entrants + [bye];
    var sc := Within(Some(1));
    assert !IsBlank("T1") by {
      assert "T1"[0] == 'T' && !IsSpace('T');
    }
    ThreeEntrantsCount(entrants, ts);
    JoinNonEmptyScope(entrants, ts, "T1", bye);
    assert CountScope(ts, "T1") == sc;
    RankedRows(ps, [], sc);
    assert bye in ps;
    assert Row(bye, [], sc) in Ranked(ps, [], sc);
  }

  /**
   * Three entrants under "T1": their standings gain a fourth row, the bye,
   * and every row starts at no wins and no matches.
   */
  method ThreeEntrantsGetABye() returns (standings: seq<Standing>)
    ensures |standings| == 4
    ensures forall s :: s in standings ==> s.wins == 0 && s.matches == 0
    ensures exists s :: s in standings && s.name == Bye
  {
    var store := RegisterThree();
    ThreeEntrantsCount(store.players, store.tournaments);
    ghost var entrants := store.players;
    standings := store.PlayerStandings("T1");
    assert !IsBlank("T1") by {
      assert "T1"[0] == 'T' && !IsSpace('T');
    }
    ThreeEntrantsAndByeRanked(entrants, store.tournaments);
  }
}

/**
 * The player store's queries: the players in a scope, countPlayers, and the
 * name lookup reportMatch does before recording a result.
 */
module Roster {
  import opened Records
  import opened Registry

  /** The players a query in scope `sc` sees, in store order. */
  function Pool(ps: seq<Player>, sc: Scope): (r: seq<Player>)
    ensures |r| <= |ps|
    ensures forall p :: p in r ==> p in ps && PlayerInScope(p, sc)
    ensures forall p :: p in ps && PlayerInScope(p, sc) ==> p in r
    ensures sc == Everyone ==> r == ps
  {
    if ps == [] then []
    else
      var rest := Pool(ps[1..], sc);
      assert ps == [ps[0]] + ps[1..];
      (if PlayerInScope(ps[0], sc) then [ps[0]] else []) + rest
  }

  /**
   * countPlayers: every player for a blank tournament name, none for an
   * unknown one, and otherwise the players registered under that tournament.
   *
   * The source passes the undefined name `tournamentId` to the filter; the
   * intended argument is the looked-up `tournament_id`, which is modelled.
   */
  function CountPlayers(ps: seq<Player>, ts: seq<Tournament>, tournament: string): (n: nat)
    ensures n <= |ps|
    ensures IsBlank(tournament) ==> n == |ps|
    ensures !IsBlank(tournament) && Lookup(ts, tournament) == None ==> n == 0
    ensures !IsBlank(tournament) && Lookup(ts, tournament).Some? ==>
              n == |set i: nat | i < |ps| && ps[i].tournamentId == Lookup(ts, tournament)|
    ensures n > 0 && !IsBlank(tournament) ==>
              Lookup(ts, tournament).Some? && exists i :: 0 <= i < |ps| && ps[i].tournamentId == Lookup(ts, tournament)
  {
    var sc := CountScope(ts, tournament);
    var pool := Pool(ps, sc);
    assert |pool| > 0 ==> pool[0] in pool;
    PoolSize(ps, sc);
    InScopeWithin(ps, Lookup(ts, tournament));
    |pool|
  }

  /** Registering one more player adds it to the pool of exactly the scopes it belongs to. */
  lemma {:induction false} PoolAppend(ps: seq<Player>, p: Player, sc: Scope)
    ensures Pool(ps + [p], sc) == Pool(ps, sc) + (if PlayerInScope(p, sc) then [p] else [])
  {
    if ps == [] {
      assert [p][1..] == [];
      assert ps + [p] == [p];
    } else {
      assert (ps + [p])[1..] == ps[1..] + [p];
      PoolAppend(ps[1..], p, sc);
    }
  }

  /** The indices of the stored players in scope `sc`. */
  function InScope(ps: seq<Player>, sc: Scope): set<nat> {
    set i: nat | i < |ps| && PlayerInScope(ps[i], sc)
  }

  lemma InScopeAppend(ps: seq<Player>, p: Player, sc: Scope)
    ensures InScope(ps + [p], sc) == InScope(ps, sc) + (if PlayerInScope(p, sc) then {|ps|} else {})
  {
    var r := ps + [p];
    assert forall i :: 0 <= i < |ps| ==> r[i] == ps[i];
    assert r[|ps|] == p;
  }

  lemma InScopeWithin(ps: seq<Player>, t: Option<nat>)
    ensures t.Some? ==> InScope(ps, Within(t)) == set i: nat | i < |ps| && ps[i].tournamentId == t
  {
  }

  /** The pool of a scope is as large as the number of stored players in that scope. */
  lemma {:induction false} PoolSize(ps: seq<Player>, sc: Scope)
    ensures |Pool(ps, sc)| == |InScope(ps, sc)|
    decreases |ps|
  {
    if ps != [] {
      var init, last := ps[..|ps| - 1], ps[|ps| - 1];
      assert ps == init + [last];
      PoolSize(init, sc);
      PoolAppend(init, last, sc);
      InScopeAppend(init, last, sc);
      assert |init| !in InScope(init, sc);
    }
  }

  /**
   * The count of a name's scope grows by one when a player of that scope
   * registers and is unchanged otherwise.
   */
  lemma CountAfterJoin(ps: seq<Player>, ts: seq<Tournament>, tournament: string, p: Player)
    ensures CountPlayers(ps + [p], ts, tournament) ==
              CountPlayers(ps, ts, tournament) + (if PlayerInScope(p, CountScope(ts, tournament)) then 1 else 0)
  {
    PoolAppend(ps, p, CountScope(ts, tournament));
  }

  /** Player ids strictly increase along the store. */
  predicate IdsIncreasing(ps: seq<Player>) {
    forall i, j :: 0 <= i < j < |ps| ==> ps[i].id < ps[j].id
  }

  /** Player ids are handed out in increasing order, from 1, and stay below `next`. */
  predicate Enrolled(ps: seq<Player>, next: nat) {
    && 1 <= next
    && IdsIncreasing(ps)
    && (forall i :: 0 <= i < |ps| ==> 1 <= ps[i].id < next)
  }

  /** A pool is a subsequence of the store, so its ids increase too. */
  lemma {:induction false} PoolIdsIncreasing(ps: seq<Player>, sc: Scope)
    requires IdsIncreasing(ps)
    ensures IdsIncreasing(Pool(ps, sc))
  {
    if ps != [] {
      TailIdsIncreasing(ps);
      PoolIdsIncreasing(ps[1..], sc);
      if PlayerInScope(ps[0], sc) {
        HeadBelowPool(ps, sc);
        ConsIdsIncreasing(ps[0], Pool(ps[1..], sc));
      }
    }
  }

  lemma TailIdsIncreasing(ps: seq<Player>)
    requires IdsIncreasing(ps) && ps != []
    ensures IdsIncreasing(ps[1..])
  {
    var tail := ps[1..];
    forall i, j | 0 <= i < j < |tail| ensures tail[i].id < tail[j].id {
      assert tail[i] == ps[i + 1] && tail[j] == ps[j + 1];
    }
  }

  lemma HeadBelowPool(ps: seq<Player>, sc: Scope)
    requires IdsIncreasing(ps) && ps != []
    ensures forall q :: q in Pool(ps[1..], sc) ==> ps[0].id < q.id
  {
    var tail := ps[1..];
    forall q | q in Pool(tail, sc) ensures ps[0].id < q.id {
      var k :| 0 <= k < |tail| && tail[k] == q;
      assert ps[k + 1] == q;
    }
  }

  lemma ConsIdsIncreasing(h: Player, rest: seq<Player>)
    requires IdsIncreasing(rest)
    requires forall q :: q in rest ==> h.id < q.id
    ensures IdsIncreasing([h] + rest)
  {
    var r := [h] + rest;
    forall i, j | 0 <= i < j < |r| ensures r[i].id < r[j].id {
      if i == 0 {
        assert r[j] == rest[j - 1] && rest[j - 1] in rest;
      } else {
        assert r[i] == rest[i - 1] && r[j] == rest[j - 1];
      }
    }
  }

  /**
   * The name reportMatch fetches for a player id: the first player with
   * that id, None when there is none.
   */
  function NameOf(ps: seq<Player>, id: nat): (r: Option<string>)
    ensures r.Some? <==> exists i :: 0 <= i < |ps| && ps[i].id == id
    ensures r.Some? ==> exists i :: 0 <= i < |ps| && ps[i].id == id && ps[i].name == r.value
  {
    if ps == [] then None
    else if ps[0].id == id then Some(ps[0].name)
    else
      var r := NameOf(ps[1..], id);
      assert forall i :: 0 <= i < |ps| - 1 ==> ps[1..][i] == ps[i + 1];
      r
  }

  /** With distinct ids, the name fetched for a player's id is that player's name. */
  lemma {:induction false} NameOfEnrolled(ps: seq<Player>, i: nat)
    requires IdsIncreasing(ps)
    requires i < |ps|
    ensures NameOf(ps, ps[i].id) == Some(ps[i].name)
  {
    if i > 0 {
      assert ps[1..][i - 1] == ps[i];
      NameOfEnrolled(ps[1..], i - 1);
    }
  }

  /** Registering a player with the next id keeps the ids increasing. */
  lemma EnrolledAfterJoin(ps: seq<Player>, next: nat, p: Player)
    requires Enrolled(ps, next)
    requires p.id == next
    ensures Enrolled(ps + [p], next + 1)
  {
    var r := ps + [p];
    forall i | 0 <= i < |r| ensures 1 <= r[i].id < next + 1 {
      if i < |ps| {
        assert r[i] == ps[i];
      }
    }
    forall i, j | 0 <= i < j < |r| ensures r[i].id < r[j].id {
      assert r[i] == ps[i];
      if j < |ps| {
        assert r[j] == ps[j];
      }
    }
  }

  /**
   * Inserting one bye with the `tournament_id` of a name whose count is odd
   * makes that count even.
   */
  lemma ByeEvensCount(ps: seq<Player>, ts: seq<Tournament>, tournament: string, next: nat)
    requires CountPlayers(ps, ts, tournament) % 2 == 1
    ensures CountPlayers(ps + [Player(next, Bye, TournamentOf(ts, tournament))], ts, tournament) % 2 == 0
  {
    JoinNonEmptyScope(ps, ts, tournament, Player(next, Bye, TournamentOf(ts, tournament)));
  }

  /**
   * A player inserted with the `tournament_id` of a name whose count is
   * non-zero belongs to that name's scope: the count grows by exactly one.
   */
  lemma JoinNonEmptyScope(ps: seq<Player>, ts: seq<Tournament>, tournament: string, p: Player)
    requires CountPlayers(ps, ts, tournament) > 0
    requires p.tournamentId == TournamentOf(ts, tournament)
    ensures CountPlayers(ps + [p], ts, tournament) == CountPlayers(ps, ts, tournament) + 1
  {
    CountAfterJoin(ps, ts, tournament, p);
  }
}

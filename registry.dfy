/**
 * The tournament registry: resolving a tournament name to its id
 * (getTournamentId) and the scopes that the player and standings queries
 * derive from a tournament name.
 */
module Registry {
  import opened Records

  /**
   * getTournamentId: the id of the first tournament with exactly this name,
   * None when there is none (`fetchone()` returning no row).
   *
   * The source returns the undefined name `tournamentId` here (a NameError on
   * every call); the intended result is the fetched id, which is modelled.
   */
  function Lookup(ts: seq<Tournament>, name: string): (r: Option<nat>)
    ensures r.Some? <==> exists i :: 0 <= i < |ts| && ts[i].name == name
    ensures r.Some? ==> exists i :: 0 <= i < |ts| && ts[i].name == name && ts[i].id == r.value
  {
    if ts == [] then None
    else if ts[0].name == name then Some(ts[0].id)
    else
      var r := Lookup(ts[1..], name);
      assert forall i :: 0 <= i < |ts| - 1 ==> ts[1..][i] == ts[i + 1];
      r
  }

  /** No two tournaments share a name. */
  predicate UniqueNames(ts: seq<Tournament>) {
    forall i, j :: 0 <= i < j < |ts| ==> ts[i].name != ts[j].name
  }

  /** Tournament ids are handed out in increasing order, from 1, and stay below `next`. */
  predicate Registered(ts: seq<Tournament>, next: nat) {
    && 1 <= next
    && UniqueNames(ts)
    && (forall i :: 0 <= i < |ts| ==> 1 <= ts[i].id < next)
    && (forall i, j :: 0 <= i < j < |ts| ==> ts[i].id < ts[j].id)
  }

  /**
   * The `tournament_id` every operation computes: None for a blank name,
   * otherwise the lookup (None when the name is unknown).
   */
  function TournamentOf(ts: seq<Tournament>, tournament: string): (r: Option<nat>)
    ensures IsBlank(tournament) ==> r == None
    ensures !IsBlank(tournament) ==> (r.Some? <==> exists i :: 0 <= i < |ts| && ts[i].name == tournament)
  {
    if IsBlank(tournament) then None else Lookup(ts, tournament)
  }

  /**
   * The scope of countPlayers: every player for a blank name, otherwise the
   * players whose TournamentId is the looked-up id (none if it is unknown).
   */
  function CountScope(ts: seq<Tournament>, tournament: string): (sc: Scope)
    ensures forall p :: PlayerInScope(p, sc) <==>
              IsBlank(tournament) || (Lookup(ts, tournament).Some? && p.tournamentId == Lookup(ts, tournament))
  {
    if IsBlank(tournament) then Everyone else Within(Lookup(ts, tournament))
  }

  /**
   * The scope of the standings query: the tournament when `tournament_id` is
   * set, otherwise the unfiltered query.
   */
  function QueryScope(tid: Option<nat>): (sc: Scope)
    ensures forall p :: PlayerInScope(p, sc) <==> tid == None || p.tournamentId == tid
    ensures forall m :: MatchInScope(m, sc) <==> tid == None || m.tournamentId == tid
  {
    if tid.Some? then Within(tid) else Everyone
  }

  /** With unique names, looking up a registered name yields that tournament's id. */
  lemma {:induction false} LookupFindsRegistered(ts: seq<Tournament>, i: nat)
    requires UniqueNames(ts)
    requires i < |ts|
    ensures Lookup(ts, ts[i].name) == Some(ts[i].id)
  {
    if i > 0 {
      assert ts[0].name != ts[i].name;
      assert ts[1..][i - 1] == ts[i];
      LookupFindsRegistered(ts[1..], i - 1);
    }
  }

  /**
   * Creating a tournament: the names known before resolve as before, and the
   * new name (absent before) resolves to the new record's id.
   */
  lemma {:induction false} LookupAfterCreate(ts: seq<Tournament>, t: Tournament, name: string)
    ensures Lookup(ts + [t], name) ==
              if Lookup(ts, name).Some? then Lookup(ts, name)
              else if t.name == name then Some(t.id)
              else None
  {
    if ts == [] {
      assert ts + [t] == [t];
      assert [t][1..] == [];
    } else {
      assert (ts + [t])[1..] == ts[1..] + [t];
      LookupAfterCreate(ts[1..], t, name);
    }
  }

  /** Creating a tournament under a name not yet registered, with the next id, keeps the registry well formed. */
  lemma RegisteredAfterCreate(ts: seq<Tournament>, next: nat, name: string)
    requires Registered(ts, next)
    requires Lookup(ts, name) == None
    ensures Registered(ts + [Tournament(next, name)], next + 1)
  {
    var r := ts + [Tournament(next, name)];
    forall i | 0 <= i < |r| ensures 1 <= r[i].id < next + 1 {
      if i < |ts| {
        assert r[i] == ts[i];
      }
    }
    forall i, j | 0 <= i < j < |r| ensures r[i].name != r[j].name && r[i].id < r[j].id {
      assert r[i] == ts[i];
      if j < |ts| {
        assert r[j] == ts[j];
      }
    }
  }
}

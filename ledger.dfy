/**
 * The match ledger: the per-player tallies the standings are built from,
 * and the row reportMatch stores, with the role swap that keeps the bye
 * sentinel out of the winner column.
 */
module Ledger {
  import opened Records
  import opened Roster

  /** The number of matches in scope `sc` that player `id` won. */
  function Wins(ms: seq<Match>, id: nat, sc: Scope): (n: nat)
    ensures n <= |ms|
  {
    if ms == [] then 0
    else (if MatchInScope(ms[0], sc) && ms[0].winnerId == id then 1 else 0) + Wins(ms[1..], id, sc)
  }

  /** The number of matches in scope `sc` that player `id` took part in, in either slot. */
  function Played(ms: seq<Match>, id: nat, sc: Scope): (n: nat)
    ensures n <= |ms|
  {
    if ms == [] then 0
    else
      var m := ms[0];
      (if MatchInScope(m, sc) && (m.winnerId == id || m.opponentId == id) then 1 else 0) + Played(ms[1..], id, sc)
  }

  /** A player cannot have won more matches than it played. */
  lemma {:induction false} WinsAtMostPlayed(ms: seq<Match>, id: nat, sc: Scope)
    ensures Wins(ms, id, sc) <= Played(ms, id, sc)
  {
    if ms != [] {
      WinsAtMostPlayed(ms[1..], id, sc);
    }
  }

  /** Recording one more match changes each tally by that match's contribution alone. */
  lemma {:induction false} TallyAppend(ms: seq<Match>, m: Match, id: nat, sc: Scope)
    ensures Wins(ms + [m], id, sc) == Wins(ms, id, sc) + (if MatchInScope(m, sc) && m.winnerId == id then 1 else 0)
    ensures Played(ms + [m], id, sc) ==
              Played(ms, id, sc) + (if MatchInScope(m, sc) && (m.winnerId == id || m.opponentId == id) then 1 else 0)
  {
    if ms == [] {
      assert [m][1..] == [];
      assert ms + [m] == [m];
    } else {
      assert (ms + [m])[1..] == ms[1..] + [m];
      TallyAppend(ms[1..], m, id, sc);
    }
  }

  /**
   * The row reportMatch stores for "winner beat loser": when the player
   * fetched for `winner` is named BYE the two ids are swapped, otherwise they
   * are stored as passed. A bye can only end up in the winner column when
   * both participants are byes.
   *
   * The source compares the fetched row by identity (`name is 'BYE'`), so the
   * swap never fires as written; the evident intent, comparing the name for
   * equality, is modelled here (see RecordedAsWritten).
   */
  function Recorded(ps: seq<Player>, winner: nat, loser: nat, tid: Option<nat>): (m: Match)
    ensures m.tournamentId == tid
    ensures multiset{m.winnerId, m.opponentId} == multiset{winner, loser}
    ensures NameOf(ps, m.winnerId) == Some(Bye) ==> NameOf(ps, winner) == Some(Bye) && NameOf(ps, loser) == Some(Bye)
    ensures NameOf(ps, winner) != Some(Bye) ==> m.winnerId == winner && m.opponentId == loser
    ensures NameOf(ps, winner) == Some(Bye) ==> m.winnerId == loser && m.opponentId == winner
  {
    if NameOf(ps, winner) == Some(Bye) then Match(loser, winner, tid) else Match(winner, loser, tid)
  }

  /**
   * reportMatch as written: getTournamentId raises NameError for every
   * non-blank tournament name (the undefined `tournamentId` it returns), so
   * such a report stores nothing; with a blank name the identity test
   * `name is 'BYE'` is always false, so the ids are stored as passed.
   */
  function RecordedAsWritten(ps: seq<Player>, winner: nat, loser: nat, tournament: string): (r: Option<Match>)
    ensures r.Some? <==> IsBlank(tournament)
    ensures r.Some? ==> r.value.winnerId == winner
  {
    if IsBlank(tournament) then Some(Match(winner, loser, None)) else None
  }

  /** As written, a bye passed as the nominal winner is stored as the winner; the intended row puts it second. */
  lemma ByeStoredAsWinnerAsWritten()
    ensures var ps := [Player(1, Bye, None), Player(2, "Ann", None)];
            && RecordedAsWritten(ps, 1, 2, "") == Some(Match(1, 2, None))
            && NameOf(ps, 1) == Some(Bye)
            && Recorded(ps, 1, 2, None) == Match(2, 1, None)
  {
  }

  /** As written, a report under a tournament name is lost; the intended row carries the tournament's id. */
  lemma ScopedReportLostAsWritten()
    ensures RecordedAsWritten([], 1, 2, "T1") == None
    ensures Recorded([], 1, 2, Some(1)) == Match(1, 2, Some(1))
  {
    assert "T1"[0] == 'T' && !IsSpace('T');
  }

  /**
   * The effect of one reported result on the tallies: both participants
   * play one more match in every scope the match belongs to, and the one
   * credited with the win is the real player when the nominal winner is a bye.
   */
  lemma ReportTally(ps: seq<Player>, ms: seq<Match>, winner: nat, loser: nat, tid: Option<nat>, sc: Scope)
    requires winner != loser
    ensures var m := Recorded(ps, winner, loser, tid);
            var k := if MatchInScope(m, sc) then 1 else 0;
            var credited := if NameOf(ps, winner) == Some(Bye) then loser else winner;
            var other := if NameOf(ps, winner) == Some(Bye) then winner else loser;
            && Played(ms + [m], winner, sc) == Played(ms, winner, sc) + k
            && Played(ms + [m], loser, sc) == Played(ms, loser, sc) + k
            && Wins(ms + [m], credited, sc) == Wins(ms, credited, sc) + k
            && Wins(ms + [m], other, sc) == Wins(ms, other, sc)
  {
    var m := Recorded(ps, winner, loser, tid);
    TallyAppend(ms, m, winner, sc);
    TallyAppend(ms, m, loser, sc);
  }
}

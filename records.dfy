/**
 * The records of a Swiss-system tournament store: tournaments, players and
 * match results as the three tables hold them, the derived standing and
 * pairing rows, and the notion of a scope (the whole pool, or one
 * tournament) that the queries filter by.
 */
module Records {

  datatype Option<T> = None | Some(value: T)

  /** A row of the tournaments table; names are unique. */
  datatype Tournament = Tournament(id: nat, name: string)

  /** A row of the players table; `tournamentId` is NULL (None) for the global pool. */
  datatype Player = Player(id: nat, name: string, tournamentId: Option<nat>)

  /** A row of the matches table: the winner's id, the loser's id, and the tournament if any. */
  datatype Match = Match(winnerId: nat, opponentId: nat, tournamentId: Option<nat>)

  /**
   * A row of the standings: id, name, wins, matches played, and the
   * tournament id (selected only by the per-tournament query, None otherwise).
   */
  datatype Standing = Standing(id: nat, name: string, wins: nat, matches: nat, tournamentId: Option<nat>)

  /** One pairing of the next round: (id1, name1, id2, name2). */
  datatype Pair = Pair(id1: nat, name1: string, id2: nat, name2: string)

  /**
   * What a query ranges over: every player, or the players whose TournamentId
   * equals the given id. `Within(None)` is the SQL `IN (NULL)` filter, which
   * matches no row.
   */
  datatype Scope = Everyone | Within(tournamentId: Option<nat>)

  /** The name of the sentinel player inserted to make the pool even. */
  const Bye: string := "BYE"

  /** The characters Python 3's `str.strip()` removes from a `str` (those for which `str.isspace()` holds). */
  predicate IsSpace(c: char) {
    || c == ' '
    || ('\t' <= c && c <= '\r')
    || ('\U{1C}' <= c && c <= '\U{1F}')
    || c == '\U{85}' || c == '\U{A0}' || c == '\U{1680}'
    || ('\U{2000}' <= c && c <= '\U{200A}')
    || c == '\U{2028}' || c == '\U{2029}' || c == '\U{202F}' || c == '\U{205F}' || c == '\U{3000}'
  }

  /** `str.lstrip()`: `s` without its leading whitespace. */
  function LStrip(s: string): (r: string)
    ensures |r| <= |s| && r == s[|s| - |r|..]
    ensures r == [] || !IsSpace(r[0])
    ensures forall i :: 0 <= i < |s| - |r| ==> IsSpace(s[i])
  {
    if s == [] || !IsSpace(s[0]) then s else LStrip(s[1..])
  }

  /** `str.rstrip()`: `s` without its trailing whitespace. */
  function RStrip(s: string): (r: string)
    ensures |r| <= |s| && r == s[..|r|]
    ensures r == [] || !IsSpace(r[|r| - 1])
    ensures forall i :: |r| <= i < |s| ==> IsSpace(s[i])
  {
    if s == [] || !IsSpace(s[|s| - 1]) then s else RStrip(s[..|s| - 1])
  }

  /** `str.strip()`: `s` without its leading and trailing whitespace. */
  function Strip(s: string): (r: string)
    ensures r == [] <==> forall i :: 0 <= i < |s| ==> IsSpace(s[i])
  {
    var l := LStrip(s);
    var r := RStrip(l);
    assert l != [] ==> s[|s| - |l|] == l[0];
    r
  }

  /**
   * A tournament name that means "no tournament": the Python test
   * `tournament and tournament.strip()` is false exactly for these, the
   * empty name (the default argument) and the names that strip to nothing
   * (see BlankIffStripsEmpty).
   */
  predicate IsBlank(s: string): (b: bool)
    ensures s == [] ==> b
  {
    forall i :: 0 <= i < |s| ==> IsSpace(s[i])
  }

  /** A name is blank exactly when the Python test `tournament and tournament.strip()` is false. */
  lemma BlankIffStripsEmpty(s: string)
    ensures IsBlank(s) <==> s == [] || Strip(s) == []
  {
  }

  predicate PlayerInScope(p: Player, sc: Scope) {
    match sc
    case Everyone => true
    case Within(t) => t.Some? && p.tournamentId == t
  }

  predicate MatchInScope(m: Match, sc: Scope) {
    match sc
    case Everyone => true
    case Within(t) => t.Some? && m.tournamentId == t
  }
}

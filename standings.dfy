/**
 * The standings engine: one row per player in scope with its wins and
 * matches played, ranked by wins descending, then matches descending, then
 * player id ascending (the ORDER BY of the standings query).
 */
module Standings {
  import opened Records
  import opened Roster
  import opened Ledger

  /** The standings row of player `p` in scope `sc`. */
  function Row(p: Player, ms: seq<Match>, sc: Scope): Standing {
    Standing(p.id, p.name, Wins(ms, p.id, sc), Played(ms, p.id, sc),
             if sc.Everyone? then None else p.tournamentId)
  }

  /** The unordered standings: one row per player of `pool`, in the same order. */
  function Rows(pool: seq<Player>, ms: seq<Match>, sc: Scope): (r: seq<Standing>)
    ensures |r| == |pool|
    ensures forall i :: 0 <= i < |pool| ==> r[i] == Row(pool[i], ms, sc)
  {
    if pool == [] then [] else [Row(pool[0], ms, sc)] + Rows(pool[1..], ms, sc)
  }

  /**
   * `a` ranks at or above `b` under ORDER BY Wins DESC, TotalMatches DESC,
   * PlayerId: more wins, or as many and more matches, or both equal and a
   * lower or equal id. The order is total: when `a` is not ahead, `b` is
   * strictly ahead.
   */
  predicate Ahead(a: Standing, b: Standing): (r: bool)
    ensures !r ==> b.wins > a.wins || (b.wins == a.wins && b.matches > a.matches)
                   || (b.wins == a.wins && b.matches == a.matches && b.id < a.id)
    ensures r && a.wins == b.wins && a.matches == b.matches ==> a.id <= b.id
  {
    || a.wins > b.wins
    || (a.wins == b.wins && a.matches > b.matches)
    || (a.wins == b.wins && a.matches == b.matches && a.id <= b.id)
  }

  predicate Sorted(s: seq<Standing>) {
    forall i, j :: 0 <= i < j < |s| ==> Ahead(s[i], s[j])
  }

  /** If `h` ranks ahead of every row of `s` and of `x`, it ranks ahead of every row of a permutation of them. */
  lemma AheadOfPermutation(h: Standing, s: seq<Standing>, x: Standing, r: seq<Standing>)
    requires forall y :: y in s ==> Ahead(h, y)
    requires Ahead(h, x)
    requires multiset(r) == multiset(s) + multiset{x}
    ensures forall y :: y in r ==> Ahead(h, y)
  {
    forall y | y in r ensures Ahead(h, y) {
      assert y in multiset(r);
    }
  }

  /** Insert row `x` into ranked rows `s` at its place. */
  function Insert(x: Standing, s: seq<Standing>): (r: seq<Standing>)
    requires Sorted(s)
    ensures Sorted(r)
    ensures multiset(r) == multiset(s) + multiset{x}
  {
    if s == [] then [x]
    else if Ahead(x, s[0]) then [x] + s
    else
      var rest := Insert(x, s[1..]);
      assert s == [s[0]] + s[1..];
      assert forall y :: y in s[1..] ==> Ahead(s[0], y);
      AheadOfPermutation(s[0], s[1..], x, rest);
      [s[0]] + rest
  }

  /** The ranking of rows `s`: sorted by (wins desc, matches desc, id asc) and a permutation of `s`. */
  function Sort(s: seq<Standing>): (r: seq<Standing>)
    ensures Sorted(r)
    ensures multiset(r) == multiset(s)
  {
    if s == [] then []
    else
      assert s == [s[0]] + s[1..];
      Insert(s[0], Sort(s[1..]))
  }

  /** The number of rows for player `id`. */
  function CountId(s: seq<Standing>, id: nat): nat {
    if s == [] then 0 else (if s[0].id == id then 1 else 0) + CountId(s[1..], id)
  }

  lemma {:induction false} InsertCountId(x: Standing, s: seq<Standing>, id: nat)
    requires Sorted(s)
    ensures CountId(Insert(x, s), id) == CountId(s, id) + (if x.id == id then 1 else 0)
  {
    if s != [] && !Ahead(x, s[0]) {
      InsertCountId(x, s[1..], id);
      assert ([s[0]] + Insert(x, s[1..]))[1..] == Insert(x, s[1..]);
    } else if s != [] {
      assert ([x] + s)[1..] == s;
    }
  }

  /** Ranking neither adds nor drops a row of any player. */
  lemma {:induction false} SortCountId(s: seq<Standing>, id: nat)
    ensures CountId(Sort(s), id) == CountId(s, id)
  {
    if s != [] {
      SortCountId(s[1..], id);
      InsertCountId(s[0], Sort(s[1..]), id);
    }
  }

  /** In rows whose ids strictly increase, each of their ids occurs exactly once. */
  lemma {:induction false} CountIdOnce(s: seq<Standing>, k: nat)
    requires forall i, j :: 0 <= i < j < |s| ==> s[i].id < s[j].id
    requires k < |s|
    ensures CountId(s, s[k].id) == 1
  {
    if k == 0 {
      CountIdAbsent(s[1..], s[0].id);
    } else {
      assert s[1..][k - 1] == s[k];
      CountIdOnce(s[1..], k - 1);
    }
  }

  lemma {:induction false} CountIdAbsent(s: seq<Standing>, id: nat)
    requires forall i :: 0 <= i < |s| ==> id < s[i].id
    ensures CountId(s, id) == 0
  {
    if s != [] {
      CountIdAbsent(s[1..], id);
    }
  }

  /**
   * The standings the query returns in scope `sc`: the rows of the players
   * in scope, ranked, as a permutation of those rows.
   */
  function Ranked(ps: seq<Player>, ms: seq<Match>, sc: Scope): (r: seq<Standing>)
    ensures Sorted(r)
    ensures |r| == |Pool(ps, sc)|
    ensures multiset(r) == multiset(Rows(Pool(ps, sc), ms, sc))
  {
    var rows := Rows(Pool(ps, sc), ms, sc);
    var r := Sort(rows);
    assert |r| == |multiset(r)| == |multiset(rows)| == |rows|;
    r
  }

  /**
   * Every standings row belongs to a player in scope and carries that
   * player's wins and matches played in scope; every player in scope has its row.
   */
  lemma RankedRows(ps: seq<Player>, ms: seq<Match>, sc: Scope)
    ensures forall s :: s in Ranked(ps, ms, sc) ==>
              && (exists p :: p in ps && PlayerInScope(p, sc) && p.id == s.id && p.name == s.name)
              && s.wins == Wins(ms, s.id, sc)
              && s.matches == Played(ms, s.id, sc)
    ensures forall p :: p in ps && PlayerInScope(p, sc) ==> Row(p, ms, sc) in Ranked(ps, ms, sc)
  {
    var pool := Pool(ps, sc);
    var rows := Rows(pool, ms, sc);
    var r := Ranked(ps, ms, sc);
    forall s | s in r
      ensures exists p :: p in ps && PlayerInScope(p, sc) && p.id == s.id && p.name == s.name
      ensures s.wins == Wins(ms, s.id, sc) && s.matches == Played(ms, s.id, sc)
    {
      assert s in multiset(rows);
      var i :| 0 <= i < |rows| && rows[i] == s;
      assert pool[i] in pool;
    }
    forall p | p in ps && PlayerInScope(p, sc) ensures Row(p, ms, sc) in r {
      var i :| 0 <= i < |pool| && pool[i] == p;
      assert rows[i] in multiset(rows);
    }
  }

  /**
   * With distinct player ids, the standings hold exactly one row for each
   * player in scope.
   */
  lemma RankedOncePerPlayer(ps: seq<Player>, ms: seq<Match>, sc: Scope, p: Player)
    requires IdsIncreasing(ps)
    requires p in ps && PlayerInScope(p, sc)
    ensures CountId(Ranked(ps, ms, sc), p.id) == 1
  {
    var pool := Pool(ps, sc);
    var rows := Rows(pool, ms, sc);
    PoolIdsIncreasing(ps, sc);
    var k :| 0 <= k < |pool| && pool[k] == p;
    CountIdOnce(rows, k);
    SortCountId(rows, p.id);
  }
}

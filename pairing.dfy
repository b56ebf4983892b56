/**
 * The pairing engine: the next round pairs the standings two at a time
 * from the top, 1st with 2nd, 3rd with 4th, and so on.
 */
module Pairing {
  import opened Records

  /** The pair of two consecutive entries: the higher-ranked takes the first seat. */
  function MakePair(a: Standing, b: Standing): (r: Pair)
    ensures Seated([r]) == Entries([a, b])
  {
    var r := Pair(a.id, a.name, b.id, b.name);
    assert [r][1..] == [] && [a, b][1..] == [b] && [b][1..] == [];
    assert Entries([b]) == [(b.id, b.name)];
    r
  }

  /** The pairs of ranked list `s`; a last, unpaired entry of an odd-length list gets no pair. */
  function Pairs(s: seq<Standing>): (r: seq<Pair>)
    ensures |r| == |s| / 2
    decreases |s|
  {
    if |s| < 2 then [] else [MakePair(s[0], s[1])] + Pairs(s[2..])
  }

  /** Pair `i` is made of the entries ranked 2i and 2i+1, in that order. */
  lemma {:induction false} PairsAt(s: seq<Standing>, i: nat)
    requires i < |s| / 2
    ensures Pairs(s)[i] == MakePair(s[2 * i], s[2 * i + 1])
    decreases i
  {
    if i > 0 {
      PairsAt(s[2..], i - 1);
      assert s[2..][2 * (i - 1)] == s[2 * i];
      assert s[2..][2 * (i - 1) + 1] == s[2 * i + 1];
    }
  }

  /** The (id, name) entries of a ranked list, in order. */
  function Entries(s: seq<Standing>): seq<(nat, string)> {
    if s == [] then [] else [(s[0].id, s[0].name)] + Entries(s[1..])
  }

  /** The (id, name) entries seated by a list of pairs, pair by pair, first seat first. */
  function Seated(pairs: seq<Pair>): seq<(nat, string)> {
    if pairs == [] then [] else [(pairs[0].id1, pairs[0].name1), (pairs[0].id2, pairs[0].name2)] + Seated(pairs[1..])
  }

  /**
   * Coverage: the pairs seat every entry of the ranked list exactly once
   * and in ranked order, except that the last entry of an odd-length list is
   * left out.
   */
  lemma {:induction false} PairsSeatEveryone(s: seq<Standing>)
    ensures Seated(Pairs(s)) == Entries(s[..|s| - |s| % 2])
    decreases |s|
  {
    var k := |s| - |s| % 2;
    if |s| < 2 {
      assert s[..k] == [];
    } else {
      var t := s[2..];
      PairsSeatEveryone(t);
      assert |t| - |t| % 2 == k - 2;
      var pairs := Pairs(s);
      assert pairs == [MakePair(s[0], s[1])] + Pairs(t);
      assert pairs[1..] == Pairs(t);
      var u := s[..k];
      assert u == [s[0]] + ([s[1]] + t[..k - 2]);
      assert u[1..] == [s[1]] + t[..k - 2];
      assert u[1..][1..] == t[..k - 2];
      assert Entries(u) == [(s[0].id, s[0].name)] + Entries(u[1..]);
      assert Entries(u[1..]) == [(s[1].id, s[1].name)] + Entries(t[..k - 2]);
    }
  }

  /**
   * The loop of the pairing: take the first two entries off the remaining
   * standings and emit their pair, while more than one entry remains.
   */
  method PairUp(standings: seq<Standing>) returns (pairs: seq<Pair>)
    ensures pairs == Pairs(standings)
    ensures |pairs| == |standings| / 2
    ensures forall i :: 0 <= i < |pairs| ==> pairs[i] == MakePair(standings[2 * i], standings[2 * i + 1])
  {
    var rest := standings;
    pairs := [];
    while |rest| > 1
      invariant 2 * |pairs| + |rest| == |standings|
      invariant pairs + Pairs(rest) == Pairs(standings)
      decreases |rest|
    {
      var winner := rest[0];
      rest := rest[1..];
      var opponent := rest[0];
      rest := rest[1..];
      pairs := pairs + [Pair(winner.id, winner.name, opponent.id, opponent.name)];
    }
    forall i | 0 <= i < |pairs| ensures pairs[i] == MakePair(standings[2 * i], standings[2 * i + 1]) {
      PairsAt(standings, i);
    }
  }
}

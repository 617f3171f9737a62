/** The accounting identity of a team: what it has spent (budget minus remaining
    budget) equals the sum of the prices of the players sold to it. */
module Ledger {
  import opened Base
  import opened Records

  /** What one player adds to a team's spend: its sold price when it is `Sold` to that team. */
  function Contribution(p: Player, teamId: int): (c: int)
    ensures c != 0 ==> IsSold(p) && p.soldToTeamId == Some(teamId)
  {
    if IsSold(p) && p.soldToTeamId == Some(teamId) then p.soldPrice else 0
  }

  /** Some key of a non-empty set; fixed, so that every sum picks the same order. */
  ghost function Pick(keys: set<int>): (k: int)
    requires keys != {}
    ensures k in keys
  {
    assert exists k :: k in keys by {
      if forall k :: k !in keys { assert false; }
    }
    var k :| k in keys; k
  }

  /** The sum of the contributions to `teamId` of the players whose ids are in `keys`. */
  ghost function SumOver(ps: map<int, Player>, keys: set<int>, teamId: int): int
    requires keys <= ps.Keys
    decreases keys
  {
    if keys == {} then 0
    else
      var k := Pick(keys);
      Contribution(ps[k], teamId) + SumOver(ps, keys - {k}, teamId)
  }

  /** Sum of the sold prices of every player sold to `teamId`. */
  ghost function SoldTotal(ps: map<int, Player>, teamId: int): int {
    SumOver(ps, ps.Keys, teamId)
  }

  /** Every team's spend is accounted for by the players sold to it. */
  ghost predicate Balanced(s: Store) {
    forall id :: id in s.teams ==> s.teams[id].budget - s.teams[id].remainingBudget == SoldTotal(s.players, id)
  }

  /** Any key can be taken out of the sum first. */
  lemma {:induction false} SumOverRemove(ps: map<int, Player>, keys: set<int>, teamId: int, k: int)
    requires keys <= ps.Keys && k in keys
    ensures SumOver(ps, keys, teamId) == Contribution(ps[k], teamId) + SumOver(ps, keys - {k}, teamId)
    decreases keys
  {
    var j := Pick(keys);
    if j != k {
      SumOverRemove(ps, keys - {j}, teamId, k);
      SumOverRemove(ps, keys - {k}, teamId, j);
      assert keys - {j} - {k} == keys - {k} - {j};
    }
  }

  /** Two tables whose players contribute alike over `keys` have the same sum there. */
  lemma {:induction false} SumOverAgree(ps: map<int, Player>, qs: map<int, Player>, keys: set<int>, teamId: int)
    requires keys <= ps.Keys && keys <= qs.Keys
    requires forall k :: k in keys ==> Contribution(ps[k], teamId) == Contribution(qs[k], teamId)
    ensures SumOver(ps, keys, teamId) == SumOver(qs, keys, teamId)
    decreases keys
  {
    if keys != {} {
      var k := Pick(keys);
      SumOverAgree(ps, qs, keys - {k}, teamId);
      SumOverRemove(qs, keys, teamId, k);
    }
  }

  /** Replacing one player changes a team's total by exactly the change in that player's contribution. */
  lemma SoldTotalUpdate(ps: map<int, Player>, id: int, p: Player, teamId: int)
    requires id in ps
    ensures SoldTotal(ps[id := p], teamId) == SoldTotal(ps, teamId) - Contribution(ps[id], teamId) + Contribution(p, teamId)
  {
    var qs := ps[id := p];
    assert qs.Keys == ps.Keys;
    SumOverRemove(ps, ps.Keys, teamId, id);
    SumOverRemove(qs, qs.Keys, teamId, id);
    SumOverAgree(ps, qs, ps.Keys - {id}, teamId);
  }

  /** Adding a player that contributes nothing leaves every team's total unchanged. */
  lemma SoldTotalInsertIdle(ps: map<int, Player>, id: int, p: Player, teamId: int)
    requires id !in ps
    requires Contribution(p, teamId) == 0
    ensures SoldTotal(ps[id := p], teamId) == SoldTotal(ps, teamId)
  {
    var qs := ps[id := p];
    assert qs.Keys - {id} == ps.Keys;
    SumOverRemove(qs, qs.Keys, teamId, id);
    SumOverAgree(ps, qs, ps.Keys, teamId);
  }

  /** Removing a player that contributes nothing leaves every team's total unchanged. */
  lemma SoldTotalRemoveIdle(ps: map<int, Player>, id: int, teamId: int)
    requires id in ps
    requires Contribution(ps[id], teamId) == 0
    ensures SoldTotal(ps - {id}, teamId) == SoldTotal(ps, teamId)
  {
    var qs := ps - {id};
    assert qs.Keys == ps.Keys - {id};
    SumOverRemove(ps, ps.Keys, teamId, id);
    SumOverAgree(ps, qs, qs.Keys, teamId);
  }

  /** A table with no player sold to `teamId` sums to zero for it. */
  lemma {:induction false} SumOverNone(ps: map<int, Player>, keys: set<int>, teamId: int)
    requires keys <= ps.Keys
    requires forall k :: k in keys ==> ps[k].soldToTeamId != Some(teamId)
    ensures SumOver(ps, keys, teamId) == 0
    decreases keys
  {
    if keys != {} {
      SumOverNone(ps, keys - {Pick(keys)}, teamId);
    }
  }

  /** The total of a one-player table is that player's contribution. */
  lemma SingleTotal(ps: map<int, Player>, id: int, teamId: int)
    requires ps.Keys == {id}
    ensures SoldTotal(ps, teamId) == Contribution(ps[id], teamId)
  {
    SumOverRemove(ps, ps.Keys, teamId, id);
    assert ps.Keys - {id} == {};
  }
}

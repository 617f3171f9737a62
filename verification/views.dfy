/** Lists derived from the player and team caches that both the projector and
    the summary dashboard show: the sold players, the newest sales, the top buys. */
module Views {
  import opened Base
  import opened Records
  import opened Lists

  function SoldPriceOf(p: Player): int { p.soldPrice }

  function RemainingOf(t: Team): int { t.remainingBudget }

  /** Counted as "remaining" on the projector: any status other than Sold and Unsold. */
  predicate IsNeitherSoldNorUnsold(p: Player) { !IsSold(p) && !IsUnsold(p) }

  /** `players.filter(p => p.status === 'Sold')`. */
  function SoldPlayers(players: seq<Player>): seq<Player> {
    Filter(players, IsSold)
  }

  /** `sold.slice(-n).reverse()`: the last n sold players in the list, newest first. */
  function NewestSold(players: seq<Player>, n: nat): (r: seq<Player>)
    ensures |r| == Min(n, |SoldPlayers(players)|)
    ensures forall i :: 0 <= i < |r| ==> IsSold(r[i]) && r[i] in players
    // the first entry is the last sold player in the list, and so on backwards
    ensures var sold := SoldPlayers(players);
            forall i :: 0 <= i < |r| ==> r[i] == sold[|sold| - 1 - i]
  {
    Reverse(Last(SoldPlayers(players), n))
  }

  /** What the sold list holds: sold players from the cache. */
  lemma SoldMembers(players: seq<Player>)
    ensures forall x :: x in SoldPlayers(players) ==> IsSold(x) && x in players
  {
  }

  /** `[...players].filter(sold).sort(by soldPrice descending).slice(0, n)`. */
  function TopBuys(players: seq<Player>, n: nat): (r: seq<Player>)
    ensures |r| == Min(n, |SoldPlayers(players)|)
    ensures forall i :: 0 <= i < |r| ==> IsSold(r[i]) && r[i] in players
    ensures NonIncreasing(r, SoldPriceOf)
    // no sold player is listed more often than it is sold
    ensures multiset(r) <= multiset(SoldPlayers(players))
  {
    var sold := SoldPlayers(players);
    var sorted := SortDescending(sold, SoldPriceOf);
    TakeNonIncreasing(sorted, n, SoldPriceOf);
    TakeOfPermutationFrom(sold, sorted, n);
    SoldMembers(players);
    Take(sorted, n)
  }

  /** No sold player left out of the top buys cost more than the cheapest one shown. */
  lemma TopBuysAreTop(players: seq<Player>, n: nat, p: Player)
    requires n > 0 && p in players && IsSold(p)
    ensures var top := TopBuys(players, n);
            p in top || p.soldPrice <= top[|top| - 1].soldPrice
  {
    var sold := SoldPlayers(players);
    var sorted := SortDescending(sold, SoldPriceOf);
    TakeOfSortedIsTop(sold, sorted, n, SoldPriceOf);
  }

  /** The top buys are the dearest sales: every sold player left out cost no more
      than any player shown. */
  lemma TopBuysAreTopAll(players: seq<Player>, n: nat)
    ensures var top := TopBuys(players, n);
            forall p, i :: p in players && IsSold(p) && p !in top && 0 <= i < |top| ==>
              p.soldPrice <= top[i].soldPrice
  {
    var top := TopBuys(players, n);
    forall p, i | p in players && IsSold(p) && p !in top && 0 <= i < |top|
      ensures p.soldPrice <= top[i].soldPrice
    {
      TopBuysAreTop(players, n, p);
    }
  }

  /** `[...teams].sort((a, b) => b.remainingBudget - a.remainingBudget)`: the purse ranking. */
  function PurseRanking(teams: seq<Team>): (r: seq<Team>)
    ensures NonIncreasing(r, RemainingOf)
    ensures multiset(r) == multiset(teams)
  {
    SortDescending(teams, RemainingOf)
  }
}

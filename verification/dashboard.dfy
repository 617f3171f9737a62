/** The admin summary dashboard (src/components/SummaryDashboard.jsx): money
    spent across teams, players per status, the top buys, the recent sales and
    the sold share of each playing role. */
module Dashboard {
  import opened Base
  import opened Records
  import opened Lists
  import opened Views
  import Sale

  /** How many entries the top-buys and recent-activity panels list. */
  const TopBuysShown: nat := 5
  const RecentShown: nat := 5

  // ------------------------------------------------------------ money spent

  /** What a team has spent: its starting budget less what remains. */
  function Spent(t: Team): int { t.budget - t.remainingBudget }

  /** `teams.reduce((acc, t) => acc + (t.budget - t.remainingBudget), 0)`. */
  function TotalSpent(teams: seq<Team>): (r: int)
    // what the teams started with less what they have left
    ensures r == TotalBudget(teams) - TotalRemaining(teams)
  {
    if teams == [] then 0 else Spent(teams[0]) + TotalSpent(teams[1..])
  }

  /** The sum of the teams' remaining budgets. */
  function TotalRemaining(teams: seq<Team>): int {
    if teams == [] then 0 else teams[0].remainingBudget + TotalRemaining(teams[1..])
  }

  /** The sum of the teams' starting budgets. */
  function TotalBudget(teams: seq<Team>): int {
    if teams == [] then 0 else teams[0].budget + TotalBudget(teams[1..])
  }

  /** When no team has overspent or gained money, the total spent lies between
      zero and the sum of the starting budgets. */
  lemma {:induction false} TotalSpentBounds(teams: seq<Team>)
    requires forall i :: 0 <= i < |teams| ==> BudgetBounded(teams[i])
    ensures 0 <= TotalSpent(teams) <= TotalBudget(teams)
  {
    if teams != [] {
      TotalSpentBounds(teams[1..]);
    }
  }

  /** Debiting one team of the list raises the total spent by exactly the amount. */
  lemma {:induction false} TotalSpentDebit(teams: seq<Team>, i: int, amount: int)
    requires 0 <= i < |teams|
    ensures TotalSpent(teams[i := teams[i].(remainingBudget := teams[i].remainingBudget - amount)])
              == TotalSpent(teams) + amount
  {
    var after := teams[i := teams[i].(remainingBudget := teams[i].remainingBudget - amount)];
    if i == 0 {
      assert after[1..] == teams[1..];
    } else {
      assert after[1..] == teams[1..][i - 1 := teams[i].(remainingBudget := teams[i].remainingBudget - amount)];
      TotalSpentDebit(teams[1..], i - 1, amount);
    }
  }

  /** Once the team cache is refreshed after a successful sale, the dashboard's
      total spent has grown by the sale price. */
  lemma SaleRaisesTotalSpent(db: Engine, s: Store, playerId: int, teamId: int, amount: int, teams: seq<Team>, i: int)
    requires 0 <= i < |teams| && teamId in s.teams && teams[i] == s.teams[teamId]
    requires Sale.Sell(db, s, playerId, teamId, amount).reply.Success?
    ensures var r := Sale.Sell(db, s, playerId, teamId, amount);
            TotalSpent(teams[i := r.store.teams[teamId]]) == TotalSpent(teams) + amount
  {
    var r := Sale.Sell(db, s, playerId, teamId, amount);
    assert r.store.teams[teamId] == teams[i].(remainingBudget := teams[i].remainingBudget - amount);
    TotalSpentDebit(teams, i, amount);
  }

  // ---------------------------------------------------------- status counts

  /** The three status cards: sold, unsold and pending players. */
  datatype StatusCounts = StatusCounts(sold: int, unsold: int, pending: int)

  function Counts(players: seq<Player>): (r: StatusCounts)
    ensures r.sold == |SoldPlayers(players)|
    ensures r.unsold == |Filter(players, IsUnsold)| && r.pending == |Filter(players, IsPending)|
    // the three cards never count a player twice
    ensures 0 <= r.sold && 0 <= r.unsold && 0 <= r.pending
    ensures r.sold + r.unsold + r.pending <= |players|
  {
    FilterPartition3(players, IsSold, IsUnsold, IsNeitherSoldNorUnsold);
    FilterMonotone(players, IsPending, IsNeitherSoldNorUnsold);
    StatusCounts(|SoldPlayers(players)|, |Filter(players, IsUnsold)|, |Filter(players, IsPending)|)
  }

  /** The top-buys panel: the five highest sale prices, highest first. */
  function DashboardTopBuys(players: seq<Player>): (r: seq<Player>)
    ensures |r| == Min(TopBuysShown, |SoldPlayers(players)|)
    ensures forall i :: 0 <= i < |r| ==> IsSold(r[i]) && r[i] in players
    ensures NonIncreasing(r, SoldPriceOf)
    ensures multiset(r) <= multiset(SoldPlayers(players))
    // the five dearest sales: no sold player left out cost more than one shown
    ensures forall p, i :: p in players && IsSold(p) && p !in r && 0 <= i < |r| ==>
              p.soldPrice <= r[i].soldPrice
  {
    TopBuysAreTopAll(players, TopBuysShown);
    TopBuys(players, TopBuysShown)
  }

  /** The recent-activity panel: the last five sold players in the list, newest first. */
  function RecentActivity(players: seq<Player>): (r: seq<Player>)
    ensures |r| == Min(RecentShown, |SoldPlayers(players)|)
    ensures forall i :: 0 <= i < |r| ==> IsSold(r[i]) && r[i] in players
    // newest first: the first entry is the last sale in the list, and so on backwards
    ensures var sold := SoldPlayers(players);
            forall i :: 0 <= i < |r| ==> r[i] == sold[|sold| - 1 - i]
  {
    NewestSold(players, RecentShown)
  }

  // -------------------------------------------------------------- role stats

  /** One row of the role breakdown. */
  datatype RoleStat = RoleStat(role: string, count: int, soldCount: int)

  /** The row labels as the dashboard writes them. */
  const DashboardRoles: seq<string> := [Batsman, Bowler, "All Rounder", WicketKeeper]

  /** The role values the forms store, in the same order. */
  const StoredRoles: seq<string> := [Batsman, Bowler, AllRounder, WicketKeeper]

  /** `players.filter(p => p.role === role).length`. */
  function CountRole(players: seq<Player>, role: string): (r: nat)
    ensures r <= |players|
  {
    if players == [] then 0
    else (if players[0].role == role then 1 else 0) + CountRole(players[1..], role)
  }

  /** `players.filter(p => p.role === role && p.status === 'Sold').length`. */
  function CountRoleSold(players: seq<Player>, role: string): (r: nat)
    ensures r <= CountRole(players, role)
  {
    if players == [] then 0
    else (if players[0].role == role && IsSold(players[0]) then 1 else 0) + CountRoleSold(players[1..], role)
  }

  /** The role counts agree with the filter they stand for. */
  lemma {:induction false} CountRoleIsFilter(players: seq<Player>, role: string, inRole: Player -> bool)
    requires forall p :: inRole(p) == (p.role == role)
    ensures CountRole(players, role) == |Filter(players, inRole)|
  {
    if players != [] {
      CountRoleIsFilter(players[1..], role, inRole);
    }
  }

  function StatFor(players: seq<Player>, role: string): (r: RoleStat)
    ensures r.role == role && 0 <= r.soldCount <= r.count <= |players|
  {
    RoleStat(role, CountRole(players, role), CountRoleSold(players, role))
  }

  /** The breakdown as written: one row per dashboard label. */
  function RoleStats(players: seq<Player>): (r: seq<RoleStat>)
    ensures |r| == |DashboardRoles|
    ensures forall i :: 0 <= i < |r| ==> r[i] == StatFor(players, DashboardRoles[i])
  {
    seq(|DashboardRoles|, i requires 0 <= i < |DashboardRoles| => StatFor(players, DashboardRoles[i]))
  }

  /** The breakdown with the labels the forms store: one row per stored role. */
  function RoleStatsFixed(players: seq<Player>): (r: seq<RoleStat>)
    ensures |r| == |StoredRoles|
    ensures forall i :: 0 <= i < |r| ==> r[i] == StatFor(players, StoredRoles[i])
  {
    seq(|StoredRoles|, i requires 0 <= i < |StoredRoles| => StatFor(players, StoredRoles[i]))
  }

  /** Every player carries one of the roles the forms offer. */
  predicate FormRoles(players: seq<Player>) {
    forall i :: 0 <= i < |players| ==> players[i].role in StoredRoles
  }

  /** As written, the "All Rounder" row never counts a player registered through
      the forms, which store "All-Rounder". */
  lemma {:induction false} AllRounderRowAlwaysEmpty(players: seq<Player>)
    requires FormRoles(players)
    ensures RoleStats(players)[2].count == 0
  {
    if players != [] {
      assert FormRoles(players[1..]);
      AllRounderRowAlwaysEmpty(players[1..]);
    }
  }

  /** A single all-rounder: the written breakdown accounts for none of the players. */
  lemma AllRounderUncounted()
    ensures var players := [Player(1, "A", AllRounder, "", 1000000, None, UnsoldStatus, 0, None)];
            var stats := RoleStats(players);
            stats[0].count + stats[1].count + stats[2].count + stats[3].count == 0
  {
  }

  /** With the stored labels every player registered through the forms lands in
      exactly one row, so the rows add up to the whole player list. */
  lemma {:induction false} FixedStatsCoverPlayers(players: seq<Player>)
    requires FormRoles(players)
    ensures var stats := RoleStatsFixed(players);
            stats[0].count + stats[1].count + stats[2].count + stats[3].count == |players|
  {
    if players != [] {
      assert FormRoles(players[1..]);
      FixedStatsCoverPlayers(players[1..]);
    }
  }
}

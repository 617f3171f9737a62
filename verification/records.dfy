/** The three tables of the auction database (server/db.js) as immutable records,
    and the store that holds them. */
module Records {
  import opened Base

  // Player status values. The column is free text; these are the values the code writes.
  const SoldStatus: string := "Sold"
  const UnsoldStatus: string := "Unsold"
  const PendingStatus: string := "Pending"

  // Player role values as the admin and registration forms store them.
  const Batsman: string := "Batsman"
  const Bowler: string := "Bowler"
  const AllRounder: string := "All-Rounder"
  const WicketKeeper: string := "Wicket Keeper"

  /** Default of the `users.role` column. */
  const DefaultUserRole: string := "admin"

  /** A row of `teams`. `budget` and `remainingBudget` are INTEGER NOT NULL. */
  datatype Team = Team(id: int, name: string, budget: int, remainingBudget: int, logo: Option<string>)

  /** A row of `players`. `soldToTeamId` is the nullable reference to `teams`. */
  datatype Player = Player(
    id: int,
    name: string,
    role: string,
    style: string,
    basePrice: int,
    image: Option<string>,
    status: string,
    soldPrice: int,
    soldToTeamId: Option<int>)

  /** A row of `users`; `email` is UNIQUE. */
  datatype User = User(id: int, email: string, passwordHash: string, role: string)

  /** The database: each table keyed by its AUTOINCREMENT id, plus the next id each table hands out. */
  datatype Store = Store(
    teams: map<int, Team>,
    players: map<int, Player>,
    users: map<int, User>,
    nextTeamId: int,
    nextPlayerId: int,
    nextUserId: int)

  /** The one engine setting the behaviour depends on and the source does not fix:
      whether SQLite enforces the `soldToTeamId` foreign key. */
  datatype Engine = Engine(foreignKeys: bool)

  const EmptyStore: Store := Store(map[], map[], map[], 1, 1, 1)

  /** Keys agree with the records' ids, and every id is below the table's next id. */
  ghost predicate WellFormed(s: Store) {
    && 1 <= s.nextTeamId && 1 <= s.nextPlayerId && 1 <= s.nextUserId
    && (forall id :: id in s.teams ==> s.teams[id].id == id && 1 <= id < s.nextTeamId)
    && (forall id :: id in s.players ==> s.players[id].id == id && 1 <= id < s.nextPlayerId)
    && (forall id :: id in s.users ==> s.users[id].id == id && 1 <= id < s.nextUserId)
  }

  /** Every player's team reference names an existing team. */
  ghost predicate ReferencesResolve(s: Store) {
    forall id :: id in s.players && s.players[id].soldToTeamId.Some? ==> s.players[id].soldToTeamId.value in s.teams
  }

  /** The budget bound the application expects of a team: 0 <= remaining <= budget. */
  predicate BudgetBounded(t: Team) {
    0 <= t.remainingBudget <= t.budget
  }

  predicate IsSold(p: Player) { p.status == SoldStatus }
  predicate IsUnsold(p: Player) { p.status == UnsoldStatus }
  predicate IsPending(p: Player) { p.status == PendingStatus }

  /** `teams.find(t => t.id === id)`: the first team with that id, or none
      (also none when the id itself is missing). */
  function FindTeam(teams: seq<Team>, id: Option<int>): (r: Option<Team>)
    ensures r.Some? <==> id.Some? && exists i :: 0 <= i < |teams| && teams[i].id == id.value
    ensures r.Some? ==> r.value in teams && r.value.id == id.value
    ensures r.Some? ==> exists i :: 0 <= i < |teams| && teams[i] == r.value &&
                          forall j :: 0 <= j < i ==> teams[j].id != id.value
  {
    if id.None? || |teams| == 0 then None
    else if teams[0].id == id.value then Some(teams[0])
    else FindTeam(teams[1..], id)
  }
}

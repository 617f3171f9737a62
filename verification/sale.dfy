/** POST /api/auction/sell: the sale transaction (server/index.js). The body writes
    the player as sold, then looks the team up and debits it; `db.transaction`
    rolls the player write back when the body throws. */
module Sale {
  import opened Base
  import opened Records
  import opened Ledger

  /** Why a sale is rolled back: the two errors the body throws, and the
      engine's foreign-key failure on the player write. */
  datatype SellError =
    | TeamNotFound(teamId: int)
    | InsufficientFunds(available: int, bid: int)
    | ForeignKeyViolation

  /** The store after the request, and the reply: the new remaining budget or the error. */
  datatype SellOutcome = SellOutcome(store: Store, reply: Result<int, SellError>)

  /** Step 1 of the body: the player UPDATE. It matches no row when the id is
      unknown, and it fails when foreign keys are enforced and the team is unknown. */
  function MarkSold(db: Engine, s: Store, playerId: int, teamId: int, amount: int): Result<Store, SellError> {
    if playerId !in s.players then Success(s)
    else if db.foreignKeys && teamId !in s.teams then Failure(ForeignKeyViolation)
    else
      var p := s.players[playerId].(status := SoldStatus, soldPrice := amount, soldToTeamId := Some(teamId));
      Success(s.(players := s.players[playerId := p]))
  }

  /** Steps 2 and 3 of the body: look the team up, check its funds, write the new budget. */
  function DebitTeam(s: Store, teamId: int, amount: int): Result<(Store, int), SellError> {
    if teamId !in s.teams then Failure(TeamNotFound(teamId))
    else
      var t := s.teams[teamId];
      if t.remainingBudget < amount then Failure(InsufficientFunds(t.remainingBudget, amount))
      else
        var newBudget := t.remainingBudget - amount;
        Success((s.(teams := s.teams[teamId := t.(remainingBudget := newBudget)]), newBudget))
  }

  /** The transaction body: the player write, then the team debit, stopping at the first throw. */
  function SellBody(db: Engine, s: Store, playerId: int, teamId: int, amount: int): Result<(Store, int), SellError> {
    match MarkSold(db, s, playerId, teamId, amount)
    case Failure(e) => Failure(e)
    case Success(afterPlayer) => DebitTeam(afterPlayer, teamId, amount)
  }

  /** The whole request: a body that throws commits nothing. */
  function Sell(db: Engine, s: Store, playerId: int, teamId: int, amount: int): (r: SellOutcome)
    // It succeeds exactly when the team exists and can pay.
    ensures r.reply.Success? <==> teamId in s.teams && amount <= s.teams[teamId].remainingBudget
    // All or nothing: a failed sale leaves the whole store as it was.
    ensures r.reply.Failure? ==> r.store == s
    // The three failures are told apart.
    ensures (r.reply == Failure(TeamNotFound(teamId))) <==>
              teamId !in s.teams && !(db.foreignKeys && playerId in s.players)
    ensures (r.reply == Failure(ForeignKeyViolation)) <==>
              teamId !in s.teams && db.foreignKeys && playerId in s.players
    ensures teamId in s.teams && amount > s.teams[teamId].remainingBudget ==>
              r.reply == Failure(InsufficientFunds(s.teams[teamId].remainingBudget, amount))
    // A success debits exactly `amount` from the named team and reports the new budget.
    ensures r.reply.Success? ==>
              && r.reply.value == s.teams[teamId].remainingBudget - amount
              && r.store.teams.Keys == s.teams.Keys
              && r.store.teams[teamId] == s.teams[teamId].(remainingBudget := r.reply.value)
    ensures r.store.players.Keys == s.players.Keys
    // A success records the player (if the row exists) as sold to that team at that price.
    ensures r.reply.Success? && playerId in s.players ==>
              r.store.players[playerId]
                == s.players[playerId].(status := SoldStatus, soldPrice := amount, soldToTeamId := Some(teamId))
    // Only the named rows change.
    ensures forall id :: id in s.players && id != playerId ==> r.store.players[id] == s.players[id]
    ensures forall id :: id in s.teams && id != teamId ==> id in r.store.teams && r.store.teams[id] == s.teams[id]
    ensures r.store.users == s.users
    ensures r.store.nextTeamId == s.nextTeamId && r.store.nextPlayerId == s.nextPlayerId
    ensures r.store.nextUserId == s.nextUserId
  {
    match SellBody(db, s, playerId, teamId, amount)
    case Failure(e) => SellOutcome(s, Failure(e))
    case Success((committed, newBudget)) => SellOutcome(committed, Success(newBudget))
  }

  /** A team whose remaining budget is not negative never becomes negative through sales. */
  lemma SellKeepsRemainingNonNegative(db: Engine, s: Store, playerId: int, teamId: int, amount: int, id: int)
    requires id in s.teams && s.teams[id].remainingBudget >= 0
    ensures var r := Sell(db, s, playerId, teamId, amount);
            id in r.store.teams && r.store.teams[id].remainingBudget >= 0
  {
  }

  /** Spending the whole remaining budget is allowed and leaves exactly zero. */
  lemma SellExactBudget(db: Engine, s: Store, playerId: int, teamId: int)
    requires teamId in s.teams
    ensures var r := Sell(db, s, playerId, teamId, s.teams[teamId].remainingBudget);
            r.reply == Success(0) && r.store.teams[teamId].remainingBudget == 0
  {
  }

  /** A sale keeps every team's spend accounted for when the player exists and is not already sold. */
  lemma SellKeepsBalanced(db: Engine, s: Store, playerId: int, teamId: int, amount: int)
    requires Balanced(s)
    requires playerId in s.players && !IsSold(s.players[playerId])
    ensures Balanced(Sell(db, s, playerId, teamId, amount).store)
  {
    var r := Sell(db, s, playerId, teamId, amount);
    if r.reply.Success? {
      var old_p := s.players[playerId];
      var new_p := r.store.players[playerId];
      assert r.store.players == s.players[playerId := new_p];
      forall id | id in r.store.teams
        ensures r.store.teams[id].budget - r.store.teams[id].remainingBudget == SoldTotal(r.store.players, id)
      {
        SoldTotalUpdate(s.players, playerId, new_p, id);
        assert Contribution(old_p, id) == 0;
      }
    }
  }

  /** A sale of an id with no player row still debits the team, so the team's
      spend is no longer accounted for by its players. */
  lemma UnknownPlayerSaleUnbalances(db: Engine)
    ensures var s := Store(map[1 := Team(1, "A", 100, 100, None)], map[], map[], 2, 1, 1);
            var r := Sell(db, s, 7, 1, 40);
            && Balanced(s)
            && r.reply == Success(60)
            && r.store.players == s.players
            && !Balanced(r.store)
  {
    var s := Store(map[1 := Team(1, "A", 100, 100, None)], map[], map[], 2, 1, 1);
    var r := Sell(db, s, 7, 1, 40);
    assert SoldTotal(s.players, 1) == 0;
    assert r.store.players == map[];
    assert SoldTotal(r.store.players, 1) == 0;
    assert r.store.teams[1].budget - r.store.teams[1].remainingBudget == 40;
  }

  /** An already sold player is accepted again: the second team pays, the first
      team's spend loses its player, and the books no longer balance. */
  lemma ResaleUnbalances(db: Engine)
    ensures var p := Player(5, "P", Batsman, "", 10, None, SoldStatus, 40, Some(1));
            var s := Store(map[1 := Team(1, "A", 100, 60, None), 2 := Team(2, "B", 100, 100, None)],
                           map[5 := p], map[], 3, 6, 1);
            var r := Sell(db, s, 5, 2, 30);
            && Balanced(s)
            && r.reply == Success(70)
            && !Balanced(r.store)
  {
    var p := Player(5, "P", Batsman, "", 10, None, SoldStatus, 40, Some(1));
    var s := Store(map[1 := Team(1, "A", 100, 60, None), 2 := Team(2, "B", 100, 100, None)],
                   map[5 := p], map[], 3, 6, 1);
    var r := Sell(db, s, 5, 2, 30);
    SingleTotal(s.players, 5, 1);
    SingleTotal(s.players, 5, 2);
    assert r.store.players == map[5 := r.store.players[5]];
    SingleTotal(r.store.players, 5, 1);
    assert SoldTotal(r.store.players, 1) == 0;
    assert r.store.teams[1] == s.teams[1];
  }

  /** Two sales against one team: the first fits and is debited, the second no
      longer fits and is rejected with the budget it saw. */
  lemma SecondSaleRejected(db: Engine, s: Store, p1: int, p2: int)
    requires 1 in s.teams && s.teams[1].remainingBudget == 1000000
    ensures var first := Sell(db, s, p1, 1, 600000);
            var second := Sell(db, first.store, p2, 1, 500000);
            && first.reply == Success(400000)
            && (p1 in s.players ==> IsSold(first.store.players[p1]))
            && second.reply == Failure(InsufficientFunds(400000, 500000))
            && second.store == first.store
  {
  }
}

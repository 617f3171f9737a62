/** The admin session's requests carried out by the server: what the SOLD flag on
    the screen means for the database. */
module Integration {
  import opened Base
  import opened Records
  import Sale
  import Api
  import AuctionRoom

  /** The server's answer to one request of the session. */
  datatype Reply = NoRequest | SellReply(result: Result<int, Sale.SellError>) | PutReply(put: Api.PutReply)

  /** The fields no request of the session touches: the users and the three id counters. */
  predicate AccountsAndCountersKept(before: Store, after: Store) {
    && after.users == before.users
    && after.nextTeamId == before.nextTeamId
    && after.nextPlayerId == before.nextPlayerId
    && after.nextUserId == before.nextUserId
  }

  /** Carry out a session's request against the store. */
  function Execute(db: Engine, s: Store, e: AuctionRoom.Effect): (r: (Store, Reply))
    ensures AccountsAndCountersKept(s, r.0)
    ensures r.0.players.Keys == s.players.Keys && r.0.teams.Keys == s.teams.Keys
    // a quiet step sends nothing and changes nothing
    ensures e.Quiet? ==> r == (s, NoRequest)
    // a sale gets a sale reply; a refused sale leaves the store as it was
    ensures e.SellRequest? ==> r.1.SellReply?
    ensures e.SellRequest? && r.1.SellReply? && r.1.result.Failure? ==> r.0 == s
    ensures e.SellRequest? ==>
              (r.1.SellReply? && r.1.result.Success? <==>
                 e.teamId in s.teams && e.amount <= s.teams[e.teamId].remainingBudget)
    // an accepted sale debits the named team and marks the named player, and nothing else
    ensures e.SellRequest? && r.1.SellReply? && r.1.result.Success? ==>
              && r.1.result.value == s.teams[e.teamId].remainingBudget - e.amount
              && r.0.teams == s.teams[e.teamId := s.teams[e.teamId].(remainingBudget := r.1.result.value)]
              && (e.playerId in s.players ==>
                    r.0.players == s.players[e.playerId := s.players[e.playerId].(
                      status := SoldStatus, soldPrice := e.amount, soldToTeamId := Some(e.teamId))])
              && (e.playerId !in s.players ==> r.0.players == s.players)
    // a PUT gets a PUT reply, never touches a team, and changes at most the named player
    ensures e.UpdateRequest? ==> r.1.PutReply? && r.0.teams == s.teams
    ensures e.UpdateRequest? ==>
              forall id :: id in s.players && id != e.playerId ==> r.0.players[id] == s.players[id]
  {
    match e
    case Quiet => (s, NoRequest)
    case SellRequest(playerId, teamId, amount) =>
      var out := Sale.Sell(db, s, playerId, teamId, amount);
      (out.store, SellReply(out.reply))
    case UpdateRequest(playerId, patch) =>
      var (after, put) := Api.UpdatePlayer(db, s, playerId, patch);
      (after, PutReply(put))
  }

  /** Whatever the session asks of the server, no team's remaining budget turns
      negative. */
  lemma ExecuteKeepsBudgetsNonNegative(db: Engine, s: Store, e: AuctionRoom.Effect)
    requires forall id :: id in s.teams ==> s.teams[id].remainingBudget >= 0
    ensures var after := Execute(db, s, e).0;
            forall id :: id in after.teams ==> after.teams[id].remainingBudget >= 0
  {
    if e.SellRequest? {
      forall id | id in s.teams
        ensures Sale.Sell(db, s, e.playerId, e.teamId, e.amount).store.teams[id].remainingBudget >= 0
      {
        Sale.SellKeepsRemainingNonNegative(db, s, e.playerId, e.teamId, e.amount, id);
      }
    }
  }

  /** A sale closed right after a team button press is accepted by the server
      whenever the admin's copy of that team is the stored one: the button is only
      enabled when the team can pay the raised bid. */
  lemma TeamButtonSaleAccepted(db: Engine, store: Store, s: AuctionRoom.Session, team: Team)
    requires AuctionRoom.TeamButtonEnabled(s, team)
    requires team.id in store.teams && store.teams[team.id] == team
    ensures var afterBid := AuctionRoom.TeamBid(s, team);
            var step := AuctionRoom.PressSold(afterBid);
            var (after, reply) := Execute(db, store, step.effect);
            && step.session.isSold
            && reply == SellReply(Success(team.remainingBudget - afterBid.bid))
            && after.teams[team.id].remainingBudget >= 0
  {
  }

  /** After a quick bid outruns the leading team's purse, the screen shows SOLD
      but the server rejects the sale and changes nothing. */
  lemma OutrunSaleRejected(db: Engine, store: Store, p: Player, team: Team)
    requires team.remainingBudget == p.basePrice + AuctionRoom.TeamIncrement
    requires team.id in store.teams && store.teams[team.id] == team
    ensures var s1 := AuctionRoom.TeamBid(AuctionRoom.StartAuction(AuctionRoom.Initial, p), team);
            var s2 := AuctionRoom.QuickRaise(s1, AuctionRoom.Plus10L);
            var step := AuctionRoom.PressSold(s2);
            var (after, reply) := Execute(db, store, step.effect);
            && step.session.isSold
            && reply == SellReply(Failure(Sale.InsufficientFunds(team.remainingBudget, s2.bid)))
            && after == store
  {
    AuctionRoom.QuickBidOutrunsBudget(p, team);
  }

  /** Passing on a player marks its row Unsold and keeps any sale fields the row had. */
  lemma PassMarksUnsold(db: Engine, store: Store, s: AuctionRoom.Session)
    requires !s.isSold && s.current.Some? && s.current.value.id in store.players
    ensures var step := AuctionRoom.Pass(s, true);
            var id := s.current.value.id;
            var (after, reply) := Execute(db, store, step.effect);
            && reply == PutReply(Api.Updated(1))
            && IsUnsold(after.players[id])
            && after.players[id].soldToTeamId == store.players[id].soldToTeamId
            && after.players[id].soldPrice == store.players[id].soldPrice
            && after.teams == store.teams
  {
  }
}

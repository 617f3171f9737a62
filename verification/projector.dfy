/** The projector tab (src/components/ProjectorView.jsx): it replaces its whole
    state with every UPDATE payload it receives, fires confetti on the rising edge
    of `isSold`, and otherwise only derives what it shows from that state and
    from the shared player and team caches. */
module Projector {
  import opened Base
  import opened Records
  import opened Lists
  import opened Broadcast
  import opened Views
  import AuctionRoom

  /** How many recent sales the live feed lists. */
  const LiveFeedSize: nat := 5
  /** How many top buys the summary overlay lists. */
  const SummaryTopBuys: nat := 3
  /** At or below this many seconds the clock is drawn in red. */
  const UrgentSeconds: int := 10

  /** The state before any message: no player, no bid, a full clock, no team list. */
  const InitialState: Snapshot := Snapshot(None, 0, None, None, false, 60, None)

  /** The state after a message, and whether confetti fired for it. */
  datatype Reception = Reception(state: Snapshot, celebrate: bool)

  /** The channel handler: an UPDATE replaces the state wholesale and celebrates
      only when it turns `isSold` on; any other message is ignored. */
  function Receive(state: Snapshot, m: Message): (r: Reception)
    ensures m.Update? ==> r.state == m.payload
    ensures m.OtherMessage? ==> r == Reception(state, false)
    ensures r.celebrate ==> r.state.isSold && !state.isSold
    // an update celebrates exactly when it turns the sold flag on
    ensures m.Update? ==> (r.celebrate <==> m.payload.isSold && !state.isSold)
  {
    match m
    case Update(payload) => Reception(payload, payload.isSold && !state.isSold)
    case OtherMessage(_) => Reception(state, false)
  }

  /** The state after a run of messages, in arrival order. */
  function ReceiveAll(state: Snapshot, ms: seq<Message>): Snapshot
    decreases |ms|
  {
    if ms == [] then state
    else Receive(ReceiveAll(state, ms[..|ms| - 1]), ms[|ms| - 1]).state
  }

  /** Message i is an update and no update follows it. */
  ghost predicate IsLastUpdate(ms: seq<Message>, i: int) {
    && 0 <= i < |ms|
    && ms[i].Update?
    && forall j :: i < j < |ms| ==> ms[j].OtherMessage?
  }

  /** Last write wins: after any run of messages the projector shows exactly the
      last update's payload, whatever it showed before and whatever came earlier. */
  lemma {:induction false} LastWriteWins(state: Snapshot, ms: seq<Message>, i: int)
    requires IsLastUpdate(ms, i)
    ensures ReceiveAll(state, ms) == ms[i].payload
    decreases |ms|
  {
    var front := ms[..|ms| - 1];
    if i < |ms| - 1 {
      assert IsLastUpdate(front, i);
      LastWriteWins(state, front, i);
    }
  }

  /** A run without updates leaves the state as it was. */
  lemma {:induction false} OtherMessagesIgnored(state: Snapshot, ms: seq<Message>)
    requires forall j :: 0 <= j < |ms| ==> ms[j].OtherMessage?
    ensures ReceiveAll(state, ms) == state
    decreases |ms|
  {
    if ms != [] {
      OtherMessagesIgnored(state, ms[..|ms| - 1]);
    }
  }

  /** A repeated sold update does not fire the confetti a second time. */
  lemma NoReplayCelebration(state: Snapshot, m: Message)
    ensures !Receive(Receive(state, m).state, m).celebrate
  {
  }

  /** The teams on screen: the broadcast list when the payload carried one, else the cache. */
  function DisplayedTeams(state: Snapshot, cached: seq<Team>): (r: seq<Team>)
    ensures state.teams.Some? ==> r == state.teams.value
    ensures state.teams.None? ==> r == cached
  {
    state.teams.GetOr(cached)
  }

  /** The team in the leader panel: the displayed team matching `winningTeamId`
      if there is one, otherwise the payload's own `winningTeam`. */
  function Winner(state: Snapshot, teams: seq<Team>): (r: Option<Team>)
    ensures r.Some? ==> (r.value in teams && Some(r.value.id) == state.winningTeamId) || r == state.winningTeam
    ensures state.winningTeamId.None? ==> r == state.winningTeam
    ensures r.None? ==> state.winningTeam.None?
    // a displayed team with the id wins over the payload's own record: the first such team
    ensures state.winningTeamId.Some? && (exists i :: 0 <= i < |teams| && teams[i].id == state.winningTeamId.value) ==>
              exists i :: 0 <= i < |teams| && r == Some(teams[i]) && teams[i].id == state.winningTeamId.value &&
                forall j :: 0 <= j < i ==> teams[j].id != state.winningTeamId.value
    // with no displayed team of that id, the payload's record is shown
    ensures state.winningTeamId.Some? && (forall i :: 0 <= i < |teams| ==> teams[i].id != state.winningTeamId.value) ==>
              r == state.winningTeam
  {
    match FindTeam(teams, state.winningTeamId)
    case Some(t) => Some(t)
    case None => state.winningTeam
  }

  /** What fills the screen: the waiting banner over the summary, or the stage for a player. */
  datatype Screen = Waiting | Stage(player: Player)

  function ScreenFor(state: Snapshot): (r: Screen)
    ensures r.Waiting? <==> state.currentPlayer.None?
  {
    if state.currentPlayer.None? then Waiting else Stage(state.currentPlayer.value)
  }

  /** The summary overlay is always shown while waiting, and on the stage only when toggled. */
  predicate SummaryVisible(state: Snapshot, toggled: bool) {
    state.currentPlayer.None? || toggled
  }

  /** A team card is highlighted when its id is the payload's winning team's id. */
  predicate Highlighted(state: Snapshot, t: Team) {
    state.winningTeam.Some? && state.winningTeam.value.id == t.id
  }

  predicate UniqueIds(teams: seq<Team>) {
    forall i, j :: 0 <= i < j < |teams| ==> teams[i].id != teams[j].id
  }

  /** With distinct team ids, at most one card in the team grid is highlighted. */
  lemma {:induction false} AtMostOneHighlighted(state: Snapshot, teams: seq<Team>)
    requires UniqueIds(teams)
    ensures |Filter(teams, (t: Team) => Highlighted(state, t))| <= 1
  {
    var lit := (t: Team) => Highlighted(state, t);
    if teams != [] {
      var tail := teams[1..];
      assert UniqueIds(tail);
      AtMostOneHighlighted(state, tail);
      if lit(teams[0]) {
        assert forall k :: 0 <= k < |tail| ==> tail[k] == teams[k + 1];
        assert Filter(tail, lit) == [];
      }
    }
  }

  /** The clock turns red in the last ten seconds. */
  predicate Urgent(state: Snapshot) {
    state.timer <= UrgentSeconds
  }

  /** The live feed: the five most recent sales, newest first. */
  function LiveFeed(players: seq<Player>): (r: seq<Player>)
    ensures |r| <= LiveFeedSize
    ensures |r| == Min(LiveFeedSize, |SoldPlayers(players)|)
    ensures forall i :: 0 <= i < |r| ==> IsSold(r[i]) && r[i] in players
    // newest first: the first entry is the last sale in the list, and so on backwards
    ensures var sold := SoldPlayers(players);
            forall i :: 0 <= i < |r| ==> r[i] == sold[|sold| - 1 - i]
  {
    NewestSold(players, LiveFeedSize)
  }

  /** The numbers on the summary overlay. */
  datatype Summary = Summary(
    topBuys: seq<Player>,
    purses: seq<Team>,
    totalSold: int,
    totalUnsold: int,
    remaining: int)

  /** The summary overlay: top three buys, teams by remaining purse, and the counts. */
  function BriefSummary(players: seq<Player>, teams: seq<Team>): (r: Summary)
    ensures |r.topBuys| == Min(SummaryTopBuys, |SoldPlayers(players)|)
    // the three dearest sales: no sold player left out cost more than one shown
    ensures forall p, i :: p in players && IsSold(p) && p !in r.topBuys && 0 <= i < |r.topBuys| ==>
              p.soldPrice <= r.topBuys[i].soldPrice
    ensures multiset(r.topBuys) <= multiset(SoldPlayers(players))
    ensures NonIncreasing(r.topBuys, SoldPriceOf)
    ensures NonIncreasing(r.purses, RemainingOf) && multiset(r.purses) == multiset(teams)
    ensures r.totalSold + r.totalUnsold + r.remaining == |players|
    ensures r.totalSold == |SoldPlayers(players)|
    // "Remaining" counts exactly the players that are neither sold nor unsold,
    // so pending registrations are among them
    ensures r.remaining == |Filter(players, IsNeitherSoldNorUnsold)|
    ensures r.remaining >= 0
  {
    var sold := |Filter(players, IsSold)|;
    var unsold := |Filter(players, IsUnsold)|;
    FilterPartition3(players, IsSold, IsUnsold, IsNeitherSoldNorUnsold);
    TopBuysAreTopAll(players, SummaryTopBuys);
    Summary(TopBuys(players, SummaryTopBuys), PurseRanking(teams), sold, unsold, |players| - sold - unsold)
  }

  /** End to end: after the admin tab publishes its session, the projector shows
      that session's player, bid, clock and sold flag, falls back to its own team
      cache, names as leader the first admin team with the leader's id, and
      celebrates exactly when the session has just been sold. */
  lemma PublishedSessionShown(state: Snapshot, s: AuctionRoom.Session, adminTeams: seq<Team>, cached: seq<Team>)
    ensures var r := Receive(state, AuctionRoom.Publish(s, adminTeams));
            && r.state.currentPlayer == s.current
            && r.state.currentBid == s.bid
            && r.state.timer == s.timer
            && r.state.isSold == s.isSold
            && DisplayedTeams(r.state, cached) == cached
            && Winner(r.state, cached) == FindTeam(adminTeams, s.leader)
            && (r.celebrate <==> s.isSold && !state.isSold)
  {
  }
}

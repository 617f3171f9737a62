/** The admin's live auction session (src/components/AuctionRoom.jsx): the staged
    player, the current bid, the leading team, the sold flag and the 60-second
    countdown, with every button and timer event as a pure transition. */
module AuctionRoom {
  import opened Base
  import opened Records
  import opened Lists
  import opened Broadcast
  import Api

  /** Length of the bidding window, in ticks. */
  const BidWindow: int := 60
  /** What a team button adds to the bid; also the margin a team must be able to afford. */
  const TeamIncrement: int := 100000
  // The custom-bid slider: min, max and step, and its starting value.
  const CustomMin: int := 100000
  const CustomMax: int := 5000000
  const CustomStep: int := 100000
  const InitialCustomBid: int := 100000

  /** The three quick-bid buttons. */
  datatype QuickBid = Plus2L | Plus5L | Plus10L {
    function Amount(): (a: int)
      ensures a in {200000, 500000, 1000000}
    {
      match this
      case Plus2L => 200000
      case Plus5L => 500000
      case Plus10L => 1000000
    }
  }

  /** The session state. `ticking` says whether the countdown interval is alive:
      it is started when the staged player or the sold flag changes and stops itself at zero. */
  datatype Session = Session(
    current: Option<Player>,
    bid: int,
    leader: Option<int>,
    isSold: bool,
    timer: int,
    ticking: bool,
    customBid: int)

  const Initial: Session := Session(None, 0, None, false, BidWindow, false, InitialCustomBid)

  /** A request the session sends to the server. */
  datatype Effect =
    | Quiet
    | SellRequest(playerId: int, teamId: int, amount: int)
    | UpdateRequest(playerId: int, patch: Api.Patch)

  datatype Step = Step(session: Session, effect: Effect)

  /** A value the custom-bid slider can hold. */
  predicate SliderValue(v: int) {
    CustomMin <= v <= CustomMax && v % CustomStep == 0
  }

  /** What holds of every session reachable from `Initial`. */
  ghost predicate Valid(s: Session) {
    && 0 <= s.timer <= BidWindow
    && (s.ticking ==> s.current.Some? && !s.isSold && s.timer >= 1)
    && (s.isSold ==> s.current.Some? && s.leader.Some?)
    && SliderValue(s.customBid)
  }

  // ----------------------------------------------------- choosing players

  predicate IsActive(p: Player) { !IsPending(p) }

  /** `unsoldPlayers`: the non-Pending players whose status is Unsold. */
  function UnsoldPlayers(players: seq<Player>): seq<Player> {
    Filter(Filter(players, IsActive), IsUnsold)
  }

  /** The Pending filter in front of the Unsold filter removes nothing more. */
  lemma UnsoldPlayersIgnorePending(players: seq<Player>)
    ensures UnsoldPlayers(players) == Filter(players, IsUnsold)
  {
    FilterFilter(players, IsActive, IsUnsold, IsUnsold);
  }

  /** The player "Next Player" stages: the first unsold player other than the current one. */
  function NextCandidate(players: seq<Player>, currentId: int): (r: Option<Player>)
    ensures r.Some? ==> r.value in players && IsUnsold(r.value) && r.value.id != currentId
    ensures r.None? ==> forall p :: p in players && IsUnsold(p) ==> p.id == currentId
  {
    var other := (p: Player) => p.id != currentId;
    var rest := Filter(UnsoldPlayers(players), other);
    UnsoldPlayersIgnorePending(players);
    assert forall p :: p in players && IsUnsold(p) && p.id != currentId ==> p in rest by {
      forall p | p in players && IsUnsold(p) && p.id != currentId ensures p in rest {
        assert p in Filter(players, IsUnsold);
        assert other(p);
      }
    }
    if |rest| == 0 then None else Some(rest[0])
  }

  /** The candidate is the earliest eligible player in the list. */
  lemma NextCandidateIsFirst(players: seq<Player>, currentId: int)
    requires NextCandidate(players, currentId).Some?
    ensures exists i :: 0 <= i < |players| && players[i] == NextCandidate(players, currentId).value &&
              forall j :: 0 <= j < i ==> !(IsUnsold(players[j]) && players[j].id != currentId)
  {
    var other := (p: Player) => p.id != currentId;
    var eligible := (p: Player) => IsUnsold(p) && p.id != currentId;
    UnsoldPlayersIgnorePending(players);
    FilterFilter(players, IsUnsold, other, eligible);
    FilterHeadIsFirst(players, eligible);
  }

  // ---------------------------------------------------------- transitions

  /** `startAuction(p)`: stage `p` at its base price with no leader and a full clock. */
  function StartAuction(s: Session, p: Player): (r: Session)
    ensures r.current == Some(p) && r.bid == p.basePrice && r.leader == None
    ensures !r.isSold && r.timer == BidWindow && r.ticking
    ensures r.customBid == s.customBid
  {
    Session(Some(p), p.basePrice, None, false, BidWindow, true, s.customBid)
  }

  /** "Start First Player" on the idle screen, shown only while nothing is staged
      and only when an unsold player exists. */
  function StartFirst(s: Session, players: seq<Player>): (r: Session)
    ensures s.current.None? && UnsoldPlayers(players) != [] ==> r == StartAuction(s, UnsoldPlayers(players)[0])
    ensures s.current.Some? || UnsoldPlayers(players) == [] ==> r == s
  {
    if s.current.Some? then s
    else
      var waiting := UnsoldPlayers(players);
      if |waiting| == 0 then s else StartAuction(s, waiting[0])
  }

  /** `handleBid(amount)`: raise the bid and reset the clock to the full window. */
  function HandleBid(s: Session, amount: int): (r: Session)
    ensures r.bid == s.bid + amount && r.timer == BidWindow
    ensures r.(bid := s.bid, timer := s.timer) == s
  {
    s.(bid := s.bid + amount, timer := BidWindow)
  }

  /** `canAfford`: the team could still pay after one more team increment. */
  function CanAfford(s: Session, team: Team): (b: bool)
    // exactly when the team could pay the bid one more press of its button would make
    ensures b <==> HandleBid(s, TeamIncrement).bid <= team.remainingBudget
  {
    team.remainingBudget >= s.bid + TeamIncrement
  }

  /** A team button is enabled only while a player is staged, unsold, and the team can afford. */
  predicate TeamButtonEnabled(s: Session, team: Team) {
    s.current.Some? && CanAfford(s, team) && !s.isSold
  }

  /** Pressing a team's button: that team leads and the bid rises by the team increment. */
  function TeamBid(s: Session, team: Team): (r: Session)
    ensures !TeamButtonEnabled(s, team) ==> r == s
    ensures TeamButtonEnabled(s, team) ==>
              && r.leader == Some(team.id)
              && r.bid == s.bid + TeamIncrement
              && r.timer == BidWindow
              // the new leader can pay the new bid
              && r.bid <= team.remainingBudget
              // the staged player, the sold flag, the interval and the slider stay as they were
              && r.(leader := s.leader, bid := s.bid, timer := s.timer) == s
  {
    if TeamButtonEnabled(s, team) then HandleBid(s.(leader := Some(team.id)), TeamIncrement) else s
  }

  /** Quick bids and the custom bid are enabled when a player is staged, unsold, and
      some team leads; the leader's budget is not consulted. */
  predicate RaiseEnabled(s: Session) {
    s.current.Some? && !s.isSold && s.leader.Some?
  }

  /** A quick-bid button. */
  function QuickRaise(s: Session, b: QuickBid): (r: Session)
    ensures RaiseEnabled(s) ==> r == HandleBid(s, b.Amount()) && r.bid > s.bid && r.leader == s.leader
    ensures !RaiseEnabled(s) ==> r == s
  {
    if RaiseEnabled(s) then HandleBid(s, b.Amount()) else s
  }

  /** Moving the custom-bid slider; the range input only yields its own step values. */
  function SetCustomBid(s: Session, v: int): (r: Session)
    requires SliderValue(v)
    ensures r.customBid == v && r.(customBid := s.customBid) == s
  {
    s.(customBid := v)
  }

  /** The custom-bid button: raise by the slider's amount. */
  function CustomRaise(s: Session): (r: Session)
    ensures RaiseEnabled(s) ==>
              && r.bid == s.bid + s.customBid && r.leader == s.leader && r.timer == BidWindow
              && r.current == s.current && !r.isSold
              && r.ticking == s.ticking && r.customBid == s.customBid
    // the slider never sits below its positive minimum, so the bid strictly rises
    ensures RaiseEnabled(s) && Valid(s) ==> r.bid > s.bid
    ensures !RaiseEnabled(s) ==> r == s
  {
    if RaiseEnabled(s) then HandleBid(s, s.customBid) else s
  }

  /** One tick of the interval: count down by one, stop at zero (clearing the interval). */
  function Countdown(s: Session): (r: Session)
    ensures !s.ticking ==> r == s
    ensures s.ticking ==> r.timer == (if s.timer <= 1 then 0 else s.timer - 1)
    ensures s.ticking ==> (r.ticking <==> s.timer > 1)
    ensures r.(timer := s.timer, ticking := s.ticking) == s
  {
    if !s.ticking then s
    else if s.timer <= 1 then s.(timer := 0, ticking := false)
    else s.(timer := s.timer - 1)
  }

  /** `handleSell`: with a staged player and a leader, request the sale at the
      current bid and show the player as sold without waiting for the reply. */
  function HandleSell(s: Session): (r: Step)
    ensures s.leader.None? || s.current.None? ==> r == Step(s, Quiet)
    ensures s.leader.Some? && s.current.Some? ==>
              && r.effect == SellRequest(s.current.value.id, s.leader.value, s.bid)
              && r.session.isSold && !r.session.ticking
              && r.session.(isSold := s.isSold, ticking := s.ticking) == s
  {
    if s.leader.None? || s.current.None? then Step(s, Quiet)
    else Step(s.(isSold := true, ticking := false), SellRequest(s.current.value.id, s.leader.value, s.bid))
  }

  /** The expiry effect: at zero, a leader wins automatically; with no leader nothing happens. */
  function Expire(s: Session): (r: Step)
    ensures s.timer == 0 && s.current.Some? && !s.isSold && s.leader.Some? ==> r == HandleSell(s)
    ensures !(s.timer == 0 && s.current.Some? && !s.isSold && s.leader.Some?) ==> r == Step(s, Quiet)
  {
    if s.timer == 0 && s.current.Some? && !s.isSold then
      if s.leader.Some? then HandleSell(s) else Step(s, Quiet)
    else Step(s, Quiet)
  }

  /** One second passing: the interval's tick, then the expiry effect on the new timer. */
  function Tick(s: Session): (r: Step)
    // with time left on a running clock, a second passes and nothing else happens
    ensures s.ticking && s.timer > 1 ==> r == Step(s.(timer := s.timer - 1), Quiet)
    // the last second of a running clock stops it at zero
    ensures s.ticking && s.timer <= 1 ==> r.session.timer == 0 && !r.session.ticking
    // and then sells to the leader at the current bid, if a team leads an unsold staged player
    ensures s.ticking && s.timer <= 1 && s.current.Some? && !s.isSold && s.leader.Some? ==>
              r.effect == SellRequest(s.current.value.id, s.leader.value, s.bid) && r.session.isSold
    ensures s.ticking && s.timer <= 1 && s.leader.None? ==> r == Step(s.(timer := 0, ticking := false), Quiet)
    // a stopped clock does not move
    ensures !s.ticking ==> r.session.timer == s.timer && !r.session.ticking
  {
    Expire(Countdown(s))
  }

  /** The SOLD button, disabled once sold or while no team leads. */
  function PressSold(s: Session): (r: Step)
    ensures s.isSold || s.leader.None? ==> r == Step(s, Quiet)
    ensures !s.isSold && s.leader.Some? ==> r == HandleSell(s)
  {
    if s.isSold || s.leader.None? then Step(s, Quiet) else HandleSell(s)
  }

  /** The Pass button (disabled once sold): after confirmation, mark the player
      Unsold on the server, unstage it, and reset the clock. */
  function Pass(s: Session, confirmed: bool): (r: Step)
    ensures s.isSold || s.current.None? || !confirmed ==> r == Step(s, Quiet)
    ensures !s.isSold && s.current.Some? && confirmed ==>
              && r.effect == UpdateRequest(s.current.value.id, Api.StatusOnly(UnsoldStatus))
              && r.session.current.None? && r.session.timer == BidWindow && !r.session.ticking
              && r.session.bid == s.bid && r.session.leader == s.leader && r.session.isSold == s.isSold
              && r.session.customBid == s.customBid
  {
    if s.isSold || s.current.None? || !confirmed then Step(s, Quiet)
    else
      Step(s.(current := None, timer := BidWindow, ticking := false),
           UpdateRequest(s.current.value.id, Api.StatusOnly(UnsoldStatus)))
  }

  /** Whether "Next Player" has someone to stage; the source crashes otherwise. */
  predicate NextAvailable(s: Session, players: seq<Player>) {
    s.isSold && s.current.Some? && NextCandidate(players, s.current.value.id).Some?
  }

  /** "Next Player" on the sold overlay. */
  function NextPlayer(s: Session, players: seq<Player>): (r: Session)
    requires NextAvailable(s, players)
    ensures r.current.Some? && r.current.value.id != s.current.value.id && IsUnsold(r.current.value)
    // the staged player comes from the list and is the earliest eligible one there
    ensures exists i :: 0 <= i < |players| && players[i] == r.current.value &&
              forall j :: 0 <= j < i ==> !(IsUnsold(players[j]) && players[j].id != s.current.value.id)
    // bidding opens at its base price, with no leader and a full, running clock
    ensures r.bid == r.current.value.basePrice
    ensures !r.isSold && r.leader.None? && r.timer == BidWindow && r.ticking
    ensures r.customBid == s.customBid
  {
    NextCandidateIsFirst(players, s.current.value.id);
    StartAuction(s, NextCandidate(players, s.current.value.id).value)
  }

  /** The payload posted to the projector after every change: the leader is sent
      as the team record found by id, or null. */
  function Publish(s: Session, teams: seq<Team>): (m: Message)
    ensures m.Update?
    ensures m.payload.currentPlayer == s.current && m.payload.currentBid == s.bid
    ensures m.payload.isSold == s.isSold && m.payload.timer == s.timer
    ensures m.payload.winningTeam.Some? ==> s.leader == Some(m.payload.winningTeam.value.id)
    // the leader's team record is sent whenever the admin's list holds one
    ensures m.payload.winningTeam == FindTeam(teams, s.leader)
    ensures m.payload.winningTeamId.None? && m.payload.teams.None?
  {
    Update(Snapshot(s.current, s.bid, FindTeam(teams, s.leader), None, s.isSold, s.timer, None))
  }

  // -------------------------------------------------------------- actions

  /** Every way the operator or the clock can move the session. */
  datatype Action =
    | StartFirstAction(players: seq<Player>)
    | TeamBidAction(team: Team)
    | QuickAction(b: QuickBid)
    | SliderAction(v: int)
    | CustomAction
    | TickAction
    | SoldAction
    | PassAction(confirmed: bool)
    | NextAction(players: seq<Player>)

  /** What the interface lets happen: the slider yields its own values, and
      "Next Player" needs someone to stage. */
  predicate Allowed(s: Session, a: Action) {
    match a
    case SliderAction(v) => SliderValue(v)
    case NextAction(players) => NextAvailable(s, players)
    case _ => true
  }

  function Apply(s: Session, a: Action): Step
    requires Allowed(s, a)
  {
    match a
    case StartFirstAction(players) => Step(StartFirst(s, players), Quiet)
    case TeamBidAction(team) => Step(TeamBid(s, team), Quiet)
    case QuickAction(b) => Step(QuickRaise(s, b), Quiet)
    case SliderAction(v) => Step(SetCustomBid(s, v), Quiet)
    case CustomAction => Step(CustomRaise(s), Quiet)
    case TickAction => Tick(s)
    case SoldAction => PressSold(s)
    case PassAction(confirmed) => Pass(s, confirmed)
    case NextAction(players) => Step(NextPlayer(s, players), Quiet)
  }

  // ----------------------------------------------------------- properties

  lemma InitialValid()
    ensures Valid(Initial)
  {
  }

  /** Every allowed action keeps the session valid. */
  lemma ApplyKeepsValid(s: Session, a: Action)
    requires Valid(s) && Allowed(s, a)
    ensures Valid(Apply(s, a).session)
  {
  }

  /** A bid button with a positive amount strictly raises the bid. */
  lemma BidsIncrease(s: Session, a: Action)
    requires Allowed(s, a) && (a.TeamBidAction? || a.QuickAction? || a.CustomAction?)
    requires Valid(s)
    requires Apply(s, a).session != s
    ensures Apply(s, a).session.bid > s.bid
  {
  }

  /** Once a sale is requested the session issues no second sale for that player:
      until "Next Player" stages someone else, every action leaves it sold and quiet
      about sales. */
  lemma NoSecondSale(s: Session, a: Action)
    requires Valid(s) && s.isSold && Allowed(s, a) && !a.NextAction?
    ensures var r := Apply(s, a);
            && !r.effect.SellRequest?
            && r.session.isSold && r.session.current == s.current && r.session.bid == s.bid
  {
  }

  /** The clock never expires a player without a leader: at zero it just stops. */
  lemma ExpiryWithoutLeaderKeepsPlayer(s: Session)
    requires Valid(s) && s.ticking && s.timer == 1 && s.leader.None?
    ensures var r := Tick(s);
            r.effect == Quiet && r.session.timer == 0 && r.session.current == s.current && !r.session.isSold
  {
  }

  /** The last tick with a team leading sells to that team at the current bid. */
  lemma ExpiryWithLeaderSells(s: Session)
    requires Valid(s) && s.ticking && s.timer == 1 && s.leader.Some?
    ensures var r := Tick(s);
            && r.effect == SellRequest(s.current.value.id, s.leader.value, s.bid)
            && r.session.isSold
  {
  }

  /** Once the clock has run out with no leader, a bid puts 60 back on the display
      but the stopped interval is not restarted, so the clock stays at 60 and the
      sale never closes by itself. */
  lemma ClockFrozenAfterExpiry(s: Session, team: Team)
    requires Valid(s) && s.timer == 0 && s.current.Some? && !s.isSold && s.leader.None?
    requires TeamButtonEnabled(s, team)
    ensures var bid := TeamBid(s, team);
            && bid.timer == BidWindow
            && Tick(bid) == Step(bid, Quiet)
  {
  }

  /** A quick bid can push the bid past what the leading team has, and the sale is
      then requested anyway. */
  lemma QuickBidOutrunsBudget(p: Player, team: Team)
    requires team.remainingBudget == p.basePrice + TeamIncrement
    ensures var s1 := TeamBid(StartAuction(Initial, p), team);
            var s2 := QuickRaise(s1, Plus10L);
            var r := PressSold(s2);
            && s1.leader == Some(team.id) && s1.bid <= team.remainingBudget
            && s2.bid > team.remainingBudget
            && r.effect == SellRequest(p.id, team.id, s2.bid)
            && r.session.isSold
  {
  }
}

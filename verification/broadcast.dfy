/** The message the admin tab posts on the `auction_sync` channel and the
    projector tab consumes. */
module Broadcast {
  import opened Base
  import opened Records

  /** The projector's whole displayed state. The admin's payload fills the first
      five fields; `winningTeamId` and `teams` are read by the projector but never sent. */
  datatype Snapshot = Snapshot(
    currentPlayer: Option<Player>,
    currentBid: int,
    winningTeam: Option<Team>,
    winningTeamId: Option<int>,
    isSold: bool,
    timer: int,
    teams: Option<seq<Team>>)

  /** A channel message: `{type: 'UPDATE', payload}` or anything else. */
  datatype Message = Update(payload: Snapshot) | OtherMessage(kind: string)
}

/** The team, player and signup endpoints of server/index.js, as functions from
    the store and the request body to the new store and the reply. */
module Api {
  import opened Base
  import opened Records
  import opened Ledger

  /** Why the database refuses a write. */
  datatype DbError = NotNullViolation | ForeignKeyViolation

  /** A JSON string field counts as given only when present and non-empty (JavaScript truthiness). */
  predicate Truthy(v: Option<string>) {
    v.Some? && v.value != ""
  }

  // ---------------------------------------------------------------- teams

  /** The body of POST /api/teams; a missing field is `None`. */
  datatype TeamBody = TeamBody(name: Option<string>, budget: Option<int>, logo: Option<string>)

  /** POST /api/teams: inserts the team with its whole budget remaining. */
  function CreateTeam(s: Store, body: TeamBody): (r: Result<(Store, Team), DbError>)
    ensures r.Success? <==> body.name.Some? && body.budget.Some?
    ensures r.Failure? ==> r.error == NotNullViolation
    ensures r.Success? ==>
              var (after, t) := r.value;
              && t.id == s.nextTeamId
              && t.name == body.name.value && t.logo == body.logo
              && t.budget == body.budget.value
              && t.remainingBudget == t.budget
              && after == s.(teams := s.teams[t.id := t], nextTeamId := s.nextTeamId + 1)
  {
    if body.name.None? || body.budget.None? then Failure(NotNullViolation)
    else
      var t := Team(s.nextTeamId, body.name.value, body.budget.value, body.budget.value, body.logo);
      Success((s.(teams := s.teams[t.id := t], nextTeamId := s.nextTeamId + 1), t))
  }

  /** The `players` list GET /api/teams attaches to a team: every player whose
      `soldToTeamId` names it, whatever that player's status. */
  function TeamPlayers(s: Store, teamId: int): set<int> {
    set id | id in s.players && s.players[id].soldToTeamId == Some(teamId)
  }

  /** One entry of GET /api/teams. */
  datatype TeamListing = TeamListing(team: Team, players: set<int>)

  /** GET /api/teams. Row order is not modelled: the listing is keyed by team id. */
  function ListTeams(s: Store): (r: map<int, TeamListing>)
    ensures r.Keys == s.teams.Keys
    ensures forall id :: id in r ==> r[id].team == s.teams[id]
    ensures forall id, pid :: id in r ==> (pid in r[id].players <==>
              pid in s.players && s.players[pid].soldToTeamId == Some(id))
  {
    map id | id in s.teams :: TeamListing(s.teams[id], TeamPlayers(s, id))
  }

  /** DELETE /api/teams/:id: removes the row and nothing else. With foreign keys
      enforced, a team still named by a player cannot be removed. */
  function DeleteTeam(db: Engine, s: Store, id: int): (r: Result<Store, DbError>)
    ensures r.Failure? <==> db.foreignKeys && id in s.teams && TeamPlayers(s, id) != {}
    ensures r.Failure? ==> r.error == ForeignKeyViolation
    ensures r.Success? ==> r.value.teams.Keys == s.teams.Keys - {id}
    ensures r.Success? ==> forall t :: t in r.value.teams ==> r.value.teams[t] == s.teams[t]
    ensures r.Success? ==> r.value.players == s.players && r.value.users == s.users
  {
    if db.foreignKeys && id in s.teams && TeamPlayers(s, id) != {} then Failure(ForeignKeyViolation)
    else Success(s.(teams := s.teams - {id}))
  }

  // -------------------------------------------------------------- players

  /** The body of POST /api/players (JSON or multipart fields); a missing field is `None`. */
  datatype PlayerBody = PlayerBody(
    name: Option<string>,
    role: Option<string>,
    style: Option<string>,
    basePrice: Option<int>,
    image: Option<string>,
    status: Option<string>)

  /** Where the server serves an uploaded file from. */
  const UploadPrefix: string := "http://localhost:3000/uploads/"

  /** POST /api/players. `upload` is the stored name of the uploaded image file, if any. */
  function CreatePlayer(s: Store, body: PlayerBody, upload: Option<string>): (r: Result<(Store, Player), DbError>)
    ensures r.Success? <==> body.name.Some? && body.role.Some? && body.basePrice.Some?
    ensures r.Failure? ==> r.error == NotNullViolation
    ensures r.Success? ==>
              var (after, p) := r.value;
              && p.id == s.nextPlayerId
              && p.name == body.name.value && p.role == body.role.value && p.basePrice == body.basePrice.value
              // a missing or empty status means Unsold
              && p.status == (if Truthy(body.status) then body.status.value else UnsoldStatus)
              // a missing or empty style is stored as ''
              && p.style == (if Truthy(body.style) then body.style.value else "")
              // an uploaded file wins over the URL in the body
              && (upload.Some? ==> p.image == Some(UploadPrefix + upload.value))
              && (upload.None? ==> p.image == body.image)
              // nobody has bought a new player
              && p.soldPrice == 0 && p.soldToTeamId == None
              && after == s.(players := s.players[p.id := p], nextPlayerId := s.nextPlayerId + 1)
  {
    if body.name.None? || body.role.None? || body.basePrice.None? then Failure(NotNullViolation)
    else
      var image := if upload.Some? then Some(UploadPrefix + upload.value) else body.image;
      var status := if Truthy(body.status) then body.status.value else UnsoldStatus;
      var style := if Truthy(body.style) then body.style.value else "";
      var p := Player(s.nextPlayerId, body.name.value, body.role.value, style, body.basePrice.value,
                      image, status, 0, None);
      Success((s.(players := s.players[p.id := p], nextPlayerId := s.nextPlayerId + 1), p))
  }

  /** The body of PUT /api/players/:id. `soldToTeamId` is `Some(None)` for an explicit JSON null. */
  datatype Patch = Patch(
    status: Option<string>,
    style: Option<string>,
    soldPrice: Option<int>,
    soldToTeamId: Option<Option<int>>)

  /** The body `{ status }` that approval and pass send. */
  function StatusOnly(status: string): Patch {
    Patch(Some(status), None, None, None)
  }

  /** Whether the body names at least one column the handler writes. */
  predicate HasUpdates(patch: Patch) {
    Truthy(patch.status) || Truthy(patch.style) || patch.soldPrice.Some? || patch.soldToTeamId.Some?
  }

  /** The reply of PUT: `{success}` alone, `{success, changes}`, or the caught error. */
  datatype PutReply = NothingToUpdate | Updated(changes: nat) | UpdateFailed(error: DbError)

  /** The player with exactly the supplied columns written. */
  function ApplyPatch(p: Player, patch: Patch): Player {
    p.(status := if Truthy(patch.status) then patch.status.value else p.status,
       style := if Truthy(patch.style) then patch.style.value else p.style,
       soldPrice := if patch.soldPrice.Some? then patch.soldPrice.value else p.soldPrice,
       soldToTeamId := if patch.soldToTeamId.Some? then patch.soldToTeamId.value else p.soldToTeamId)
  }

  /** PUT /api/players/:id: writes only the supplied columns of that one row. */
  function UpdatePlayer(db: Engine, s: Store, id: int, patch: Patch): (r: (Store, PutReply))
    ensures !HasUpdates(patch) ==> r == (s, NothingToUpdate)
    ensures HasUpdates(patch) && id !in s.players ==> r == (s, Updated(0))
    ensures r.1.UpdateFailed? <==>
              && HasUpdates(patch) && id in s.players && db.foreignKeys
              && patch.soldToTeamId.Some? && patch.soldToTeamId.value.Some?
              && patch.soldToTeamId.value.value !in s.teams
    ensures r.1 != Updated(1) ==> r.0 == s
    // a body with something to write, for an existing row, is written unless the engine refuses it
    ensures HasUpdates(patch) && id in s.players && !r.1.UpdateFailed? ==> r.1 == Updated(1)
    ensures r.1 == Updated(1) ==>
              && id in s.players && id in r.0.players
              && var (before, after) := (s.players[id], r.0.players[id]);
              // the status and style are written only when truthy
              && after.status == (if Truthy(patch.status) then patch.status.value else before.status)
              && after.style == (if Truthy(patch.style) then patch.style.value else before.style)
              // price and team are written whenever present, zero and null included
              && after.soldPrice == (if patch.soldPrice.Some? then patch.soldPrice.value else before.soldPrice)
              && after.soldToTeamId == (if patch.soldToTeamId.Some? then patch.soldToTeamId.value else before.soldToTeamId)
              && after.(status := before.status, style := before.style,
                        soldPrice := before.soldPrice, soldToTeamId := before.soldToTeamId) == before
              && r.0 == s.(players := s.players[id := after])
  {
    if !HasUpdates(patch) then (s, NothingToUpdate)
    else if id !in s.players then (s, Updated(0))
    else if db.foreignKeys && patch.soldToTeamId.Some? && patch.soldToTeamId.value.Some?
            && patch.soldToTeamId.value.value !in s.teams then
      (s, UpdateFailed(ForeignKeyViolation))
    else (s.(players := s.players[id := ApplyPatch(s.players[id], patch)]), Updated(1))
  }

  /** DELETE /api/players/:id: removes the row; no team is refunded. */
  function DeletePlayer(s: Store, id: int): (r: Store)
    ensures r.players.Keys == s.players.Keys - {id}
    ensures forall pid :: pid in r.players ==> r.players[pid] == s.players[pid]
    ensures r.teams == s.teams && r.users == s.users
  {
    s.(players := s.players - {id})
  }

  // ---------------------------------------------------------------- users

  /** The one error signup reports, whatever the cause. */
  datatype SignupError = EmailExistsOrInvalid

  predicate EmailTaken(users: map<int, User>, email: string) {
    exists id :: id in users && users[id].email == email
  }

  /** No two users share an email. */
  ghost predicate EmailsUnique(users: map<int, User>) {
    forall a, b :: a in users && b in users && a != b ==> users[a].email != users[b].email
  }

  /** POST /api/auth/signup. `hash` stands for bcrypt, which is not modelled; a
      missing password makes it throw, like a missing or taken email makes the insert throw. */
  function Signup(s: Store, email: Option<string>, password: Option<string>, hash: string -> string)
    : (r: Result<(Store, int), SignupError>)
    ensures r.Success? <==> email.Some? && password.Some? && !EmailTaken(s.users, email.value)
    ensures r.Success? ==>
              var (after, id) := r.value;
              && id == s.nextUserId
              && after == s.(users := s.users[id := User(id, email.value, hash(password.value), DefaultUserRole)],
                             nextUserId := s.nextUserId + 1)
  {
    if email.None? || password.None? || EmailTaken(s.users, email.value) then Failure(EmailExistsOrInvalid)
    else
      var id := s.nextUserId;
      Success((s.(users := s.users[id := User(id, email.value, hash(password.value), DefaultUserRole)],
                  nextUserId := id + 1), id))
  }

  // ----------------------------------------------------------- properties

  /** Creating a team keeps the store well formed and balanced, hands out a fresh
      id, and GET /api/teams then lists no players for it, as the reply's `players: []` says. */
  lemma CreateTeamKeepsInvariants(s: Store, body: TeamBody)
    requires WellFormed(s) && ReferencesResolve(s) && Balanced(s)
    requires CreateTeam(s, body).Success?
    ensures var (after, t) := CreateTeam(s, body).value;
            && t.id !in s.teams
            && WellFormed(after) && ReferencesResolve(after) && Balanced(after)
            && ListTeams(after)[t.id].players == {}
  {
    var (after, t) := CreateTeam(s, body).value;
    forall id | id in after.teams
      ensures after.teams[id].budget - after.teams[id].remainingBudget == SoldTotal(after.players, id)
    {
      if id == t.id {
        SumOverNone(after.players, after.players.Keys, id);
      }
    }
    assert forall pid :: pid in after.players ==> after.players[pid].soldToTeamId != Some(t.id);
    assert TeamPlayers(after, t.id) == {};
  }

  /** Creating a player keeps the store well formed and balanced: a new player
      has cost no team anything, whatever status the body gave it. */
  lemma CreatePlayerKeepsInvariants(s: Store, body: PlayerBody, upload: Option<string>)
    requires WellFormed(s) && ReferencesResolve(s) && Balanced(s)
    requires CreatePlayer(s, body, upload).Success?
    ensures var (after, p) := CreatePlayer(s, body, upload).value;
            && p.id !in s.players
            && WellFormed(after) && ReferencesResolve(after) && Balanced(after)
  {
    var (after, p) := CreatePlayer(s, body, upload).value;
    forall id | id in after.teams
      ensures after.teams[id].budget - after.teams[id].remainingBudget == SoldTotal(after.players, id)
    {
      SoldTotalInsertIdle(s.players, p.id, p, id);
    }
  }

  /** A body with no status and no price gives the column defaults: `Unsold` and 0. */
  lemma CreatePlayerDefaults(s: Store, name: string, role: string, basePrice: int)
    ensures var r := CreatePlayer(s, PlayerBody(Some(name), Some(role), None, Some(basePrice), None, None), None);
            r.Success? && r.value.1.status == UnsoldStatus && r.value.1.soldPrice == 0
            && r.value.1.style == "" && r.value.1.soldToTeamId == None
  {
  }

  /** Sending the same body twice changes the row no further: a partial update is idempotent. */
  lemma UpdatePlayerIdempotent(db: Engine, s: Store, id: int, patch: Patch)
    ensures var once := UpdatePlayer(db, s, id, patch).0;
            UpdatePlayer(db, once, id, patch).0 == once
  {
  }

  /** `{status: 'Unsold'}` alone, as pass sends it, leaves a sold player's price and
      team in place, so GET /api/teams still lists the player under that team. */
  lemma StatusOnlyKeepsSaleRecord(db: Engine, s: Store, id: int, teamId: int)
    requires id in s.players && s.players[id].soldToTeamId == Some(teamId)
    ensures var after := UpdatePlayer(db, s, id, StatusOnly(UnsoldStatus)).0;
            && after.players[id].status == UnsoldStatus
            && after.players[id].soldPrice == s.players[id].soldPrice
            && after.players[id].soldToTeamId == Some(teamId)
            && id in TeamPlayers(after, teamId)
  {
  }

  /** With foreign keys enforced, no update can leave a player naming a missing team. */
  lemma UpdatePlayerKeepsReferences(s: Store, id: int, patch: Patch)
    requires ReferencesResolve(s)
    ensures ReferencesResolve(UpdatePlayer(Engine(true), s, id, patch).0)
  {
  }

  /** With foreign keys enforced, deleting teams never orphans a player. */
  lemma DeleteTeamKeepsReferences(s: Store, id: int)
    requires ReferencesResolve(s)
    ensures var r := DeleteTeam(Engine(true), s, id);
            r.Success? ==> ReferencesResolve(r.value)
  {
    var r := DeleteTeam(Engine(true), s, id);
    if r.Success? {
      assert forall pid :: pid in s.players && s.players[pid].soldToTeamId == Some(id) ==> pid in TeamPlayers(s, id);
    }
  }

  /** Without enforcement, deleting a team that bought a player leaves that player
      naming a team that no longer exists. */
  lemma DeleteTeamOrphans(s: Store, id: int, pid: int)
    requires pid in s.players && s.players[pid].soldToTeamId == Some(id)
    ensures var r := DeleteTeam(Engine(false), s, id);
            && r.Success?
            && r.value.players[pid].soldToTeamId == Some(id)
            && id !in r.value.teams
            && !ReferencesResolve(r.value)
  {
  }

  /** Deleting a sold player refunds nothing, so its team's spend is no longer accounted for. */
  lemma DeleteSoldPlayerUnbalances()
    ensures var s := Store(map[1 := Team(1, "A", 100, 60, None)],
                           map[5 := Player(5, "P", Bowler, "", 10, None, SoldStatus, 40, Some(1))],
                           map[], 2, 6, 1);
            Balanced(s) && !Balanced(DeletePlayer(s, 5))
  {
    var s := Store(map[1 := Team(1, "A", 100, 60, None)],
                   map[5 := Player(5, "P", Bowler, "", 10, None, SoldStatus, 40, Some(1))],
                   map[], 2, 6, 1);
    SingleTotal(s.players, 5, 1);
    assert DeletePlayer(s, 5).players == map[];
  }

  /** Signup keeps emails unique. */
  lemma SignupKeepsEmailsUnique(s: Store, email: Option<string>, password: Option<string>, hash: string -> string)
    requires WellFormed(s) && EmailsUnique(s.users)
    ensures var r := Signup(s, email, password, hash);
            r.Success? ==> WellFormed(r.value.0) && EmailsUnique(r.value.0.users)
  {
  }

  /** A second signup with an email that just signed up is refused and changes nothing. */
  lemma SecondSignupRejected(s: Store, email: string, p1: string, p2: string, hash: string -> string)
    requires !EmailTaken(s.users, email)
    ensures var first := Signup(s, Some(email), Some(p1), hash);
            && first.Success?
            && first.value.0.users[first.value.1].role == DefaultUserRole
            && Signup(first.value.0, Some(email), Some(p2), hash).Failure?
  {
    var first := Signup(s, Some(email), Some(p1), hash);
    var id := first.value.1;
    assert first.value.0.users[id].email == email;
  }
}

/** The three admin and public forms and what each one posts: the admin player
    form and pool lists (src/components/PlayerManager.jsx), the public
    registration form (src/components/PlayerRegistration.jsx) and the team form
    (src/components/TeamManager.jsx). A form's submit is a function from the
    form's fields to the request body it sends, if any, and the fields after reset. */
module Forms {
  import opened Base
  import opened Records
  import opened Lists
  import opened Text
  import Api
  import Ledger
  import AuctionRoom

  /** Prices and budgets are typed in millions of rupees. */
  const Million: int := 1000000

  const DefaultBatting: string := "Right Hand Bat"
  const DefaultBowling: string := "Right Arm Fast"

  /** The generated avatar for a player added by the admin: a URL seeded by the name. */
  function PlayerAvatar(name: string): string {
    "https://api.dicebear.com/7.x/micah/svg?seed=" + name + "&backgroundColor=f1f5f9"
  }

  /** The generated logo for a team added without one. */
  function TeamAvatar(name: string): string {
    "https://api.dicebear.com/7.x/initials/svg?seed=" + name + "&backgroundColor=0ea5e9"
  }

  /** The style string both player forms derive from the role and the two style pickers. */
  function StyleFor(role: string, batting: string, bowling: string): (r: string)
    ensures role == Batsman || role == WicketKeeper ==> r == batting
    ensures role == Bowler ==> r == bowling
    ensures role == AllRounder ==> r == batting + " & " + bowling
    ensures role != Batsman && role != WicketKeeper && role != Bowler && role != AllRounder ==> r == ""
  {
    if role == Batsman || role == WicketKeeper then batting
    else if role == Bowler then bowling
    else if role == AllRounder then batting + " & " + bowling
    else ""
  }

  /** An all-rounder's style names the batting style first and the bowling style last. */
  lemma AllRounderStyleNamesBoth(batting: string, bowling: string)
    ensures var st := StyleFor(AllRounder, batting, bowling);
            && st[..|batting|] == batting
            && st[|st| - |bowling|..] == bowling
            && |st| == |batting| + 3 + |bowling|
  {
    var st := StyleFor(AllRounder, batting, bowling);
    assert st == batting + " & " + bowling;
  }

  // ------------------------------------------------------- admin player form

  /** The admin player form's fields; the price is in millions. */
  datatype ManagerForm = ManagerForm(name: string, role: string, batting: string, bowling: string, priceMillions: int)

  const ManagerInitial: ManagerForm := ManagerForm("", AllRounder, DefaultBatting, DefaultBowling, 1)

  /** "Add Player": nothing is sent for a blank name; otherwise the player is
      posted as Unsold with a generated avatar, and name, role and price reset
      while the style pickers keep their values. */
  function AddPlayer(f: ManagerForm): (r: (ManagerForm, Option<Api.PlayerBody>))
    ensures r.1.None? <==> IsBlank(f.name)
    ensures r.1.None? ==> r.0 == f
    ensures r.1.Some? ==>
              && r.1.value == Api.PlayerBody(Some(f.name), Some(f.role), Some(StyleFor(f.role, f.batting, f.bowling)),
                                             Some(f.priceMillions * Million), Some(PlayerAvatar(f.name)), Some(UnsoldStatus))
              && r.0 == f.(name := "", role := AllRounder, priceMillions := 1)
  {
    if Trim(f.name) == "" then (f, None)
    else
      var body := Api.PlayerBody(Some(f.name), Some(f.role), Some(StyleFor(f.role, f.batting, f.bowling)),
                                 Some(f.priceMillions * Million), Some(PlayerAvatar(f.name)), Some(UnsoldStatus));
      (f.(name := "", role := AllRounder, priceMillions := 1), Some(body))
  }

  /** A player the admin adds is stored as Unsold under the name as typed (not
      trimmed), and the next-player search can pick it straight away. */
  lemma AdminPlayerJoinsPool(s: Store, f: ManagerForm)
    requires !IsBlank(f.name)
    ensures var body := AddPlayer(f).1;
            && body.Some?
            && var r := Api.CreatePlayer(s, body.value, None);
            && r.Success?
            && var p := r.value.1;
            && p.name == f.name && IsUnsold(p) && AuctionRoom.IsActive(p)
            && p.basePrice == f.priceMillions * Million
            && p.image == Some(PlayerAvatar(f.name))
            && (forall c :: c in f.name ==> c in p.image.value)
  {
    var body := AddPlayer(f).1.value;
    var p := Api.CreatePlayer(s, body, None).value.1;
    var prefix := "https://api.dicebear.com/7.x/micah/svg?seed=";
    forall c | c in f.name ensures c in p.image.value {
      var i :| 0 <= i < |f.name| && f.name[i] == c;
      assert p.image.value[|prefix| + i] == c;
    }
  }

  /** "Approve" on a request: PUT `{status: 'Unsold'}` for that id. The row
      becomes Unsold and nothing else about it or the store changes. */
  function Approve(db: Engine, s: Store, id: int): (r: (Store, Api.PutReply))
    ensures id !in s.players ==> r == (s, Api.Updated(0))
    ensures id in s.players ==>
              && r.1 == Api.Updated(1)
              && r.0 == s.(players := s.players[id := s.players[id].(status := UnsoldStatus)])
  {
    Api.UpdatePlayer(db, s, id, Api.StatusOnly(UnsoldStatus))
  }

  /** "Decline": the request is deleted once the confirmation is accepted, else nothing happens. */
  function Decline(s: Store, id: int, confirmed: bool): (r: Store)
    ensures !confirmed ==> r == s
    ensures confirmed ==> r.players.Keys == s.players.Keys - {id}
    ensures forall pid :: pid in r.players ==> pid in s.players && r.players[pid] == s.players[pid]
    ensures r.teams == s.teams && r.users == s.users
  {
    if confirmed then Api.DeletePlayer(s, id) else s
  }

  /** Declining a request never disturbs the teams' accounts. */
  lemma DeclineKeepsBalanced(s: Store, id: int, confirmed: bool)
    requires Ledger.Balanced(s)
    requires id in s.players && IsPending(s.players[id])
    ensures Ledger.Balanced(Decline(s, id, confirmed))
  {
    if confirmed {
      var r := Decline(s, id, confirmed);
      assert r.players == s.players - {id};
      forall t | t in r.teams
        ensures r.teams[t].budget - r.teams[t].remainingBudget == Ledger.SoldTotal(r.players, t)
      {
        Ledger.SoldTotalRemoveIdle(s.players, id, t);
      }
    }
  }

  /** The "Requests" tab. */
  function PendingList(players: seq<Player>): seq<Player> {
    Filter(players, IsPending)
  }

  /** The "Active Pool" tab: every player that is not Pending. */
  function ApprovedList(players: seq<Player>): seq<Player> {
    Filter(players, AuctionRoom.IsActive)
  }

  /** The two tabs split the player list: every player is on exactly one. */
  lemma TabsPartitionPlayers(players: seq<Player>)
    ensures |PendingList(players)| + |ApprovedList(players)| == |players|
    ensures forall p :: p in players ==> (p in PendingList(players) <==> !(p in ApprovedList(players)))
  {
    FilterPartition(players, IsPending, AuctionRoom.IsActive);
  }

  /** The search box: the player's name, lower-cased, includes the lower-cased term. */
  function NameMatches(term: string): Player -> bool {
    (p: Player) => Contains(Lower(p.name), Lower(term))
  }

  datatype Tab = RequestsTab | PoolTab

  /** The players on the chosen tab. */
  function TabList(players: seq<Player>, tab: Tab): seq<Player> {
    if tab == RequestsTab then PendingList(players) else ApprovedList(players)
  }

  /** The list under the tabs: the chosen tab's players whose names match the search. */
  function Displayed(players: seq<Player>, tab: Tab, term: string): (r: seq<Player>)
    ensures var list := TabList(players, tab);
            forall i :: 0 <= i < |r| ==> r[i] in list && NameMatches(term)(r[i])
    // and nothing that matches is left out, nor shown more often than the tab holds it
    ensures var list := TabList(players, tab);
            && (forall p :: p in list && NameMatches(term)(p) ==> p in r)
            && multiset(r) <= multiset(list)
  {
    Filter(TabList(players, tab), NameMatches(term))
  }

  /** An empty search shows the whole tab. */
  lemma EmptySearchShowsTab(players: seq<Player>, tab: Tab)
    ensures Displayed(players, tab, "") == TabList(players, tab)
  {
    var list := TabList(players, tab);
    forall i | 0 <= i < |list| ensures NameMatches("")(list[i]) {
      ContainsEmpty(Lower(list[i].name));
    }
    FilterKeepAll(list, NameMatches(""));
  }

  /** The search ignores the case of ASCII letters: lower-casing the name or the
      term beforehand changes no result. */
  lemma SearchIgnoresCase(p: Player, term: string)
    ensures NameMatches(term)(p) == NameMatches(Lower(term))(p.(name := Lower(p.name)))
  {
    LowerIdempotent(p.name);
    LowerIdempotent(term);
  }

  // ---------------------------------------------------- public registration

  /** Where the registration form takes the photo from. */
  datatype ImageSource = FromUrl | FromUpload

  datatype RegistrationForm = RegistrationForm(
    name: string,
    role: string,
    batting: string,
    bowling: string,
    priceMillions: int,
    image: string,
    source: ImageSource,
    file: Option<string>)

  const RegistrationInitial: RegistrationForm :=
    RegistrationForm("", Batsman, DefaultBatting, DefaultBowling, 1, "", FromUrl, None)

  /** What the form posts: the body, and the file when it goes as multipart. */
  datatype Submission = Submission(body: Api.PlayerBody, file: Option<string>)

  /** The name the upload store gives a file: the arrival time's digits, a dash,
      and the file's own name. */
  function StoredName(stamp: string, original: string): string {
    stamp + "-" + original
  }

  /** "Register": nothing is sent for an empty name (a name of spaces is sent);
      otherwise the player is posted as Pending, as multipart with the chosen
      file when "upload" is selected and a file is chosen, else as JSON with the
      typed image URL. Name, price, URL and file reset; role, styles and the
      image source stay. */
  function Register(f: RegistrationForm): (r: (RegistrationForm, Option<Submission>))
    ensures r.1.None? <==> f.name == ""
    ensures r.1.None? ==> r.0 == f
    ensures r.1.Some? ==>
              var sub := r.1.value;
              && sub.body.name == Some(f.name) && sub.body.role == Some(f.role)
              && sub.body.style == Some(StyleFor(f.role, f.batting, f.bowling))
              && sub.body.basePrice == Some(f.priceMillions * Million)
              && sub.body.status == Some(PendingStatus)
              && (sub.file.Some? <==> f.source == FromUpload && f.file.Some?)
              && (sub.file.Some? ==> sub.file == f.file && sub.body.image.None?)
              && (sub.file.None? ==> sub.body.image == Some(f.image))
              && r.0 == f.(name := "", priceMillions := 1, image := "", file := None)
  {
    if f.name == "" then (f, None)
    else
      var style := StyleFor(f.role, f.batting, f.bowling);
      var price := f.priceMillions * Million;
      var sub :=
        if f.source == FromUpload && f.file.Some? then
          Submission(Api.PlayerBody(Some(f.name), Some(f.role), Some(style), Some(price), None, Some(PendingStatus)), f.file)
        else
          Submission(Api.PlayerBody(Some(f.name), Some(f.role), Some(style), Some(price), Some(f.image), Some(PendingStatus)), None);
      (f.(name := "", priceMillions := 1, image := "", file := None), Some(sub))
  }

  /** A registration lands as a Pending request that the auction never stages;
      once approved it is Unsold, keeps its sale fields untouched, and is eligible. */
  lemma RegistrationNeedsApproval(db: Engine, s: Store, f: RegistrationForm, stamp: string)
    requires f.name != ""
    ensures var sub := Register(f).1.value;
            var created := Api.CreatePlayer(s, sub.body, if sub.file.Some? then Some(StoredName(stamp, sub.file.value)) else None);
            && created.Success?
            && var (after, p) := created.value;
            && IsPending(p) && !AuctionRoom.IsActive(p)
            && (sub.file.Some? ==> p.image == Some(Api.UploadPrefix + (stamp + "-" + f.file.value)))
            && var approved := Approve(db, after, p.id);
            && approved.1 == Api.Updated(1)
            && IsUnsold(approved.0.players[p.id]) && AuctionRoom.IsActive(approved.0.players[p.id])
            && approved.0.players[p.id].soldToTeamId.None?
  {
  }

  /** A name of spaces is turned away by the admin form but accepted by the public one. */
  lemma BlankNameOnlyRegisters(f: RegistrationForm, g: ManagerForm)
    requires f.name == " " && g.name == " "
    ensures Register(f).1.Some? && AddPlayer(g).1.None?
  {
    assert IsBlank(g.name);
  }

  // -------------------------------------------------------------- team form

  /** The team form. The budget field holds the millions typed; an emptied field
      is `None`, which `parseInt` turns into NaN and JSON sends as null. */
  datatype TeamForm = TeamForm(name: string, logo: string, budgetMillions: Option<int>)

  const TeamInitial: TeamForm := TeamForm("", "", Some(10))

  /** "Add Team": nothing is sent for a blank name; otherwise the team is posted
      with its budget in rupees (null for an emptied field) and the trimmed logo
      URL, or a generated logo when that is empty, and the form goes back to its
      initial values whatever the server answers. */
  function AddTeam(f: TeamForm): (r: (TeamForm, Option<Api.TeamBody>))
    ensures r.1.None? <==> IsBlank(f.name)
    ensures r.1.None? ==> r.0 == f
    ensures r.1.Some? ==>
              && r.0 == TeamInitial
              && r.1.value.name == Some(f.name)
              && (r.1.value.budget.None? <==> f.budgetMillions.None?)
              && (f.budgetMillions.Some? ==> r.1.value.budget == Some(f.budgetMillions.value * Million))
              && r.1.value.logo == Some(if IsBlank(f.logo) then TeamAvatar(f.name) else Trim(f.logo))
  {
    if Trim(f.name) == "" then (f, None)
    else
      var budget := if f.budgetMillions.Some? then Some(f.budgetMillions.value * Million) else None;
      var logo := if Trim(f.logo) != "" then Trim(f.logo) else TeamAvatar(f.name);
      (TeamInitial, Some(Api.TeamBody(Some(f.name), budget, Some(logo))))
  }

  /** A team added through the form is created exactly when the budget field is
      filled in; it then starts with its whole purse and always has a logo, and a
      typed logo is stored without surrounding whitespace. */
  lemma FormTeamStartsFull(s: Store, f: TeamForm)
    requires !IsBlank(f.name)
    ensures var body := AddTeam(f).1;
            && body.Some?
            && var r := Api.CreateTeam(s, body.value);
            && (r.Success? <==> f.budgetMillions.Some?)
            && (r.Success? ==>
                  var t := r.value.1;
                  && t.budget == t.remainingBudget == f.budgetMillions.value * Million
                  && Api.Truthy(t.logo)
                  && (!IsBlank(f.logo) ==> !IsJsSpace(t.logo.value[0]) && !IsJsSpace(t.logo.value[|t.logo.value| - 1])))
  {
    var logo := if IsBlank(f.logo) then TeamAvatar(f.name) else Trim(f.logo);
    var body := AddTeam(f).1.value;
    assert body.logo == Some(logo);
    var r := Api.CreateTeam(s, body);
    if r.Success? {
      assert body.budget == Some(f.budgetMillions.value * Million);
      assert r.value.1.logo == Some(logo);
      if IsBlank(f.logo) {
        assert |TeamAvatar(f.name)| > 0;
      } else {
        assert Trim(f.logo) != [];
      }
    }
  }

  /** An emptied budget field loses the team: the server refuses the null budget,
      yet the form has already gone back to its initial values. */
  lemma EmptyBudgetLosesTeam(s: Store, f: TeamForm)
    requires !IsBlank(f.name) && f.budgetMillions.None?
    ensures var (form, body) := AddTeam(f);
            && form == TeamInitial
            && body.Some?
            && Api.CreateTeam(s, body.value) == Failure(Api.NotNullViolation)
  {
  }
}

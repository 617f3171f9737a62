# CricPick auction bookkeeping, in Dafny

CricPick runs a live cricket player auction. An admin tab drives the session: it
stages a player, takes bids from teams on a 60-second clock and sells the player
to the leading team. A projector tab mirrors the session over a broadcast
channel. A small Express/SQLite server keeps the `teams`, `players` and `users`
tables and performs each sale as a single transaction. A summary dashboard and
three forms (admin player entry, public registration, team entry) complete the
picture.

This project models the bookkeeping part of that system as pure functions over
immutable records, and proves what each part guarantees.

- `base.dfy` (`Base`): `Option`, `Result`, `Min`.
- `records.dfy` (`Records`): the three tables as records and the store that
  holds them.
  - The store keeps each table as a map from its AUTOINCREMENT id, plus the
    next id each table hands out.
  - It also defines the status and role strings, and the store invariants:
    ids match keys, and references resolve.
- `ledger.dfy` (`Ledger`): the accounting identity `Balanced`. For every team,
  budget minus remaining budget equals the sum of the prices of the players
  sold to it.
- `sale.dfy` (`Sale`): POST `/api/auction/sell` as an all-or-nothing
  transaction.
- `api.dfy` (`Api`): the team and player endpoints, the partial PUT update, and
  signup.
- `auction_room.dfy` (`AuctionRoom`): the admin session as a state machine
  whose transitions are the buttons and clock ticks. Requests to the server
  are returned as effects.
- `broadcast.dfy` (`Broadcast`): the snapshot message posted to the projector.
- `projector.dfy` (`Projector`): what the projector does with a message, and
  what it derives for display.
- `views.dfy` (`Views`), `lists.dfy` (`Lists`): the sold list, newest sales,
  top buys and purse ranking, built from JavaScript's
  `filter`/`slice`/`reverse`/`sort`.
- `dashboard.dfy` (`Dashboard`): total spent, status counts, top buys, recent
  activity and the role breakdown.
- `text.dfy` (`Text`), `forms.dfy` (`Forms`): JavaScript `trim`, `toLowerCase`
  and `includes`, and the three forms.
- `integration.dfy` (`Integration`): the session's requests carried out by the
  server.

Modelling choices:
- **Foreign keys.** Whether SQLite enforces the `soldToTeamId` foreign key
  depends on how the engine is built, and nothing in the code switches it on.
  It is therefore a parameter, `Engine(foreignKeys)`, and both settings are
  covered.
- **Clock.** The session's clock carries a `ticking` flag. The countdown
  interval clears itself at zero and restarts only when the staged player or
  the sold flag changes. So a bid after the clock ran out shows 60 again, but
  the clock stays frozen there.
- **Amounts.** Integers throughout. The source's `parseInt` is an identity on
  the integral amounts the session sends.
- **Sale amounts.** server/index.js:122-167 has no check that the amount is
  positive, so `Sale.Sell` accepts any amount the team can cover, including 0
  or a negative amount.

## Model

| member | source | states |
|---|---|---|
| Sale.Sell | server/index.js:122-167 | A sale succeeds exactly when the team exists and can pay. A failure leaves the whole store as it was, even though the player row was written first. Unknown team, foreign-key failure and insufficient funds are told apart. Success debits exactly the amount and reports the new budget, and records the player as Sold to that team at that price. No other row changes. |
| Sale.SellKeepsRemainingNonNegative | server/index.js:140-148 | A team whose remaining budget is not negative never becomes negative through any sale. |
| Sale.SellExactBudget | server/index.js:143-148 | Bidding the whole remaining budget is accepted and leaves exactly zero. |
| Sale.SellKeepsBalanced | server/index.js:129-153 | Selling an existing, not yet sold player keeps every team's spend equal to the sum of the prices of the players sold to it. |
| Sale.UnknownPlayerSaleUnbalances | server/index.js:129-131 | A sale naming a player id with no row updates no player, yet the team is debited and its spend is no longer accounted for. |
| Sale.ResaleUnbalances | server/index.js:129-131 | An already sold player is sold again: the second team pays, the first team keeps its debit but loses the player, and the books stop balancing. |
| Sale.SecondSaleRejected | server/index.js:140-148 | A team with 1,000,000 left pays 600,000 for a first player (400,000 remain). A second bid of 500,000 is then refused with the 400,000 it saw, and nothing changes. |
| Api.CreateTeam | server/index.js:43-48 | A team is created exactly when name and budget are given (NOT NULL). It gets the next id and starts with remaining budget equal to its budget. |
| Api.CreateTeamKeepsInvariants | server/index.js:43-48 | A new team keeps the store well formed and balanced. The team listing then shows no players for it, as the reply's empty `players` says. |
| Api.ListTeams | server/index.js:33-41 | GET `/api/teams` lists every team, each with exactly the ids of the players whose `soldToTeamId` names it, whatever their status. |
| Api.DeleteTeam | server/index.js:50-55 | Deleting a team removes only that row and leaves its players as they were. With enforced foreign keys, it fails exactly when the team exists and a player still names it; deleting a missing id removes nothing and succeeds. |
| Api.DeleteTeamKeepsReferences | server/db.js:30-31 | With enforced foreign keys, deleting a team never leaves a player naming a missing team. |
| Api.DeleteTeamOrphans | server/index.js:50-55 | Without enforcement, deleting a team that bought a player leaves that player naming a team that no longer exists. |
| Api.CreatePlayer | server/index.js:63-77 | A player is created exactly when name, role and base price are given. A missing or empty status becomes Unsold, and a missing or empty style becomes ''. An uploaded file's URL replaces the body's image. The new player has sold price 0 and no team. |
| Api.CreatePlayerKeepsInvariants | server/index.js:73-75 | Creating a player keeps the store well formed and balanced: a new player has cost no team anything, whatever status the body gave it. |
| Api.CreatePlayerDefaults | server/db.js:28-29 | A body with no status, style or sale fields yields status Unsold, sold price 0, style '' and no team. |
| Api.UpdatePlayer | server/index.js:79-113 | PUT writes only the supplied columns of the one row. Status and style are written only when truthy. Price and team are written whenever present, including 0 and null. A body with something to write, for an existing row, is always written unless an enforced foreign key refuses it. A body with nothing to write changes nothing. An unknown id changes nothing. An enforced foreign-key failure is reported and rolls nothing in. |
| Api.UpdatePlayerIdempotent | server/index.js:89-92 | Sending the same PUT body twice changes the row no further. |
| Api.StatusOnlyKeepsSaleRecord | server/index.js:89-92 | A body of just `{status: 'Unsold'}` leaves a sold player's price and team in place, so the team listing still shows that player. |
| Api.UpdatePlayerKeepsReferences | server/db.js:30-31 | With enforced foreign keys, no PUT can leave a player naming a missing team. |
| Api.DeletePlayer | server/index.js:115-119 | Deleting a player removes exactly that row. Teams and users are untouched, so no budget is refunded. |
| Api.DeleteSoldPlayerUnbalances | server/index.js:115-119 | Deleting a sold player refunds nothing, so the books stop balancing. |
| Api.Signup | server/index.js:172-182 | Signup succeeds exactly when email and password are given and the email is not taken. The new user gets the next id, the hashed password and role 'admin'. |
| Api.SignupKeepsEmailsUnique | server/db.js:36 | Signup never lets two users share an email. |
| Api.SecondSignupRejected | server/index.js:176-181 | A first signup creates an 'admin' user. A second signup with the same email is refused. |
| AuctionRoom.StartAuction | src/components/AuctionRoom.jsx:20-26 | Staging a player sets the bid to its base price, clears the leader and the sold flag, and restarts a full 60-second clock. |
| AuctionRoom.StartFirst | src/components/AuctionRoom.jsx:129-137 | "Start First Player" stages the first non-Pending Unsold player. It does nothing while a player is staged or when nobody is waiting. |
| AuctionRoom.UnsoldPlayersIgnorePending | src/components/AuctionRoom.jsx:17-18 | Filtering out Pending players before keeping the Unsold ones changes nothing: the waiting list is simply the Unsold players. |
| AuctionRoom.HandleBid | src/components/AuctionRoom.jsx:71-74 | A bid adds its amount to the current bid, resets the clock to 60, and changes nothing else. |
| AuctionRoom.CanAfford | src/components/AuctionRoom.jsx:267 | A team counts as able to afford exactly when it could pay the bid that one more press of its button would make. |
| AuctionRoom.TeamBid | src/components/AuctionRoom.jsx:266-278 | A team button acts only while a player is staged, unsold, and the team can pay the bid plus 100,000. It makes that team the leader, raises the bid by 100,000 and restarts the 60 on the clock, so the leader can always pay the new bid. The staged player, the sold flag, the running interval and the slider stay as they were. |
| AuctionRoom.QuickRaise | src/components/AuctionRoom.jsx:306-313 | Quick bids act only with a leader on an unsold staged player. They raise the bid strictly and keep the leader, without consulting the leader's budget. |
| AuctionRoom.SetCustomBid | src/components/AuctionRoom.jsx:340-344 | The slider sets the custom amount to one of its own values (100,000 to 5,000,000 in steps of 100,000) and nothing else. |
| AuctionRoom.CustomRaise | src/components/AuctionRoom.jsx:346-350 | With a leader on an unsold staged player, the custom bid adds the slider's amount to the bid and puts 60 back on the clock. The leader, the staged player, the interval and the slider are kept. Because the slider never sits below 100,000, the bid strictly rises. Otherwise nothing changes. |
| AuctionRoom.Countdown | src/components/AuctionRoom.jsx:29-41 | A tick counts down by one only while the interval runs, stops at zero, and clears the interval when it reaches zero. |
| AuctionRoom.Tick | src/components/AuctionRoom.jsx:29-53 | One second on a running clock with time left only counts down. The last second stops the clock at zero. Then, with a team leading an unsold staged player, it requests the sale to that team at the current bid and shows sold; with no leader nothing else happens. A stopped clock does not move. |
| AuctionRoom.Expire | src/components/AuctionRoom.jsx:44-53 | At zero, with a staged unsold player and a leader, the sale is triggered. Without a leader nothing happens. |
| AuctionRoom.HandleSell | src/components/AuctionRoom.jsx:76-81 | Without a leader or a staged player nothing happens. Otherwise the sale is requested at the current bid, and the session shows sold at once without waiting for the server. |
| AuctionRoom.PressSold | src/components/AuctionRoom.jsx:320-322 | The SOLD button is inert once sold or with no leader, and otherwise performs the sale. |
| AuctionRoom.Pass | src/components/AuctionRoom.jsx:83-90 | Pass is inert once sold, with nothing staged, or when not confirmed. Otherwise it sends `{status: 'Unsold'}` for the player, unstages it and resets the clock. It keeps the bid, the leader, the sold flag and the slider. |
| AuctionRoom.NextCandidate | src/components/AuctionRoom.jsx:205 | The next player is a non-Pending Unsold player other than the current one. None is found only when no such player exists. |
| AuctionRoom.NextCandidateIsFirst | src/components/AuctionRoom.jsx:205 | The next player is the earliest such player in the list. |
| AuctionRoom.NextPlayer | src/components/AuctionRoom.jsx:204-209 | "Next Player" stages the earliest Unsold player in the list other than the one just sold. Bidding opens at that player's base price, with no leader, not sold, and a full, running clock; the slider is kept. |
| AuctionRoom.Publish | src/components/AuctionRoom.jsx:56-69 | The broadcast payload carries the session's player, bid, clock and sold flag. Its winning team is the first team in the admin's list with the leader's id, or null when there is none. It carries neither a team id nor a team list. |
| AuctionRoom.InitialValid | src/components/AuctionRoom.jsx:9-14 | The initial session satisfies the session invariant. |
| AuctionRoom.ApplyKeepsValid | src/components/AuctionRoom.jsx:20-90 | Every button and tick keeps the session invariant. The clock stays within 0..60. A sold session has a staged player and a leader. A running clock means an unsold staged player. The slider holds one of its values. |
| AuctionRoom.BidsIncrease | src/components/AuctionRoom.jsx:71-74 | Any bid button that changes the session strictly raises the bid. |
| AuctionRoom.NoSecondSale | src/components/AuctionRoom.jsx:274-350 | Once sold, no action other than "Next Player" requests another sale or changes the staged player or the bid. |
| AuctionRoom.ExpiryWithoutLeaderKeepsPlayer | src/components/AuctionRoom.jsx:44-53 | The last tick with no leader stops the clock at zero, sends nothing, and keeps the player staged and unsold. |
| AuctionRoom.ExpiryWithLeaderSells | src/components/AuctionRoom.jsx:44-53 | The last tick with a leader sells to that leader at the current bid. |
| AuctionRoom.ClockFrozenAfterExpiry | src/components/AuctionRoom.jsx:29-41 | After the clock runs out with no leader, a team bid puts 60 back on the display. The stopped interval never counts it down again, so the sale never closes by itself. |
| AuctionRoom.QuickBidOutrunsBudget | src/components/AuctionRoom.jsx:306-324 | A quick bid can raise the bid past what the leading team has left, and SOLD still requests the sale. |
| Integration.Execute | src/context/AuctionContext.jsx:92-123 | No request touches the users or the id counters, and none adds or removes a row. A quiet step changes nothing. A sale is accepted exactly when the team exists and can pay; a refused sale leaves the store as it was. An accepted sale changes only the named team's remaining budget and the named player's sale fields. A PUT never touches a team and changes at most the named player. |
| Integration.ExecuteKeepsBudgetsNonNegative | server/index.js:140-148 | Whatever the admin session asks of the server, no team's remaining budget turns negative if none was. |
| Integration.TeamButtonSaleAccepted | src/components/AuctionRoom.jsx:267-278 | A sale closed right after a team button press is always accepted by the server, if the admin's copy of that team is current. The team is left with a non-negative budget. |
| Integration.OutrunSaleRejected | src/components/AuctionRoom.jsx:76-81 | After a quick bid outruns the leader's purse, the screen shows SOLD while the server refuses the sale with insufficient funds and changes nothing. |
| Integration.PassMarksUnsold | src/components/AuctionRoom.jsx:83-90 | Passing marks the row Unsold and keeps any sale price and team the row already had. No team changes. |
| Projector.Receive | src/components/ProjectorView.jsx:26-37 | An UPDATE replaces the whole displayed state with its payload. Other messages are ignored. An UPDATE fires the confetti exactly when its payload is sold and the displayed state was not. |
| Projector.LastWriteWins | src/components/ProjectorView.jsx:28-30 | After any run of messages the projector shows exactly the last update's payload, whatever it showed before. |
| Projector.OtherMessagesIgnored | src/components/ProjectorView.jsx:29 | A run of non-UPDATE messages leaves the display as it was. |
| Projector.NoReplayCelebration | src/components/ProjectorView.jsx:31-33 | Receiving the same sold update twice fires the confetti at most once. |
| Projector.DisplayedTeams | src/components/ProjectorView.jsx:24 | The projector shows the payload's team list when it carries one, and otherwise its own team cache. |
| Projector.Winner | src/components/ProjectorView.jsx:176 | The leader panel shows the first displayed team whose id is the payload's `winningTeamId`. When no displayed team has that id, or no id was sent, it shows the payload's own `winningTeam`. |
| Projector.PublishedSessionShown | src/components/ProjectorView.jsx:24-37 | After the admin publishes, the projector shows the session's player, bid, clock and sold flag. It falls back to its own teams and names as leader the first admin team with the leader's id. It celebrates exactly when the session has just turned sold. |
| Projector.ScreenFor | src/components/ProjectorView.jsx:161-174 | The waiting screen shows exactly when no player is staged. |
| Projector.AtMostOneHighlighted | src/components/ProjectorView.jsx:244-246 | With distinct team ids, at most one team card is highlighted as the leader. |
| Projector.LiveFeed | src/components/ProjectorView.jsx:58 | The live feed shows the five most recent sales, or all of them if fewer, newest first: entry i is the i-th sold player counting back from the end of the list. |
| Projector.BriefSummary | src/components/ProjectorView.jsx:61-64 | The overlay lists the three highest-priced sold players, or all of them if fewer, by non-increasing price: no sold player left out cost more than one shown, and none is listed more often than sold. It lists all teams by non-increasing remaining purse. Sold, Unsold and Remaining add up to the player count, and Remaining is exactly the players that are neither sold nor unsold, so never negative. |
| Views.NewestSold | src/components/ProjectorView.jsx:58 | The first entry is the last sold player in the list, the second the one before, and so on. There are min(n, sold) of them. |
| Views.TopBuys | src/components/ProjectorView.jsx:61 | The top buys are sold players from the list, in non-increasing sold price, min(n, sold) of them. None is listed more often than it appears among the sold players. |
| Views.TopBuysAreTop | src/components/SummaryDashboard.jsx:14-17 | No sold player left out of the top buys cost more than the cheapest one shown. |
| Views.TopBuysAreTopAll | src/components/ProjectorView.jsx:61 | The top buys are the dearest sales: every sold player left out cost no more than any player shown. |
| Views.PurseRanking | src/components/ProjectorView.jsx:62 | The purse ranking is a reordering of the teams by non-increasing remaining budget. |
| Dashboard.TotalSpent | src/components/SummaryDashboard.jsx:9 | The total spent is the sum of the starting budgets less the sum of the remaining budgets. |
| Dashboard.TotalSpentBounds | src/components/SummaryDashboard.jsx:9 | When no team has overspent or gained money, total spent lies between zero and the sum of the starting budgets. |
| Dashboard.TotalSpentDebit | src/components/SummaryDashboard.jsx:9 | Debiting one team by an amount raises the total spent by exactly that amount. |
| Dashboard.SaleRaisesTotalSpent | src/components/SummaryDashboard.jsx:9 | Once the cache reflects a successful sale, total spent has grown by the sale price. |
| Dashboard.Counts | src/components/SummaryDashboard.jsx:10-12 | The Sold, Unsold and Pending cards count by exact status and never count a player twice: their sum is at most the number of players. |
| Dashboard.DashboardTopBuys | src/components/SummaryDashboard.jsx:14-17 | The five highest-priced sold players, or all of them if fewer, by non-increasing sold price: no sold player left out cost more than one shown, and none is listed more often than it appears among the sold players. |
| Dashboard.RecentActivity | src/components/SummaryDashboard.jsx:19-22 | The last five sold players in the list, or all of them if fewer, newest first: entry i is the i-th sold player counting back from the end. |
| Dashboard.CountRoleSold | src/components/SummaryDashboard.jsx:26-27 | A role's sold count never exceeds its player count. |
| Dashboard.CountRoleIsFilter | src/components/SummaryDashboard.jsx:26 | The role count is the length of the role filter. |
| Dashboard.RoleStats | src/components/SummaryDashboard.jsx:24-29 | One row per dashboard label, in order. Each row counts the players with exactly that role string and the sold ones among them. |
| Dashboard.AllRounderRowAlwaysEmpty | src/components/SummaryDashboard.jsx:24 | When every player has a role the forms offer, the "All Rounder" row counts nobody. |
| Dashboard.AllRounderUncounted | src/components/SummaryDashboard.jsx:24-29 | A list of one all-rounder: the four rows together count no player. |
| Dashboard.RoleStatsFixed | src/components/SummaryDashboard.jsx:24-29 | With the role strings the forms store, there is one row per role, in the same order. |
| Dashboard.FixedStatsCoverPlayers | src/components/SummaryDashboard.jsx:24-29 | With the stored labels, every player entered through the forms lands in exactly one row, so the rows add up to the whole list. |
| Forms.StyleFor | src/components/PlayerManager.jsx:23-30 | Batsman and Wicket Keeper take the batting style, and Bowler the bowling style. All-Rounder takes "batting & bowling". Any other role gets ''. |
| Forms.AllRounderStyleNamesBoth | src/components/PlayerRegistration.jsx:38-39 | An all-rounder's style starts with the batting style and ends with the bowling style. |
| Forms.AddPlayer | src/components/PlayerManager.jsx:19-44 | A blank or whitespace-only name sends nothing and keeps the form. Otherwise it posts the untrimmed name, role, derived style, price × 1,000,000, a name-seeded avatar and status Unsold. Name, role and price then reset to '', All-Rounder and 1; the style pickers keep their values. |
| Forms.AdminPlayerJoinsPool | src/components/PlayerManager.jsx:32-39 | A player the admin adds is stored Unsold under the name as typed, with the avatar, and is at once eligible to be staged. |
| Forms.Approve | src/components/PlayerManager.jsx:46-48 | Approving sets the row's status to Unsold and changes nothing else. An unknown id changes nothing. |
| Forms.Decline | src/components/PlayerManager.jsx:50-54 | Declining deletes the request only when confirmed. |
| Forms.DeclineKeepsBalanced | src/components/PlayerManager.jsx:50-54 | Declining a Pending request never disturbs any team's accounts. |
| Forms.TabsPartitionPlayers | src/components/PlayerManager.jsx:56-57 | Every player is on exactly one of the Requests and Active Pool tabs, and the two counts add up to the player count. |
| Forms.Displayed | src/components/PlayerManager.jsx:59-61 | The list shown holds the chosen tab's players whose lower-cased name includes the lower-cased term. Every shown player is on the tab and matches, every matching player is shown, and none is shown more often than the tab holds it. |
| Forms.EmptySearchShowsTab | src/components/PlayerManager.jsx:59-61 | An empty search shows the whole tab. |
| Forms.SearchIgnoresCase | src/components/PlayerManager.jsx:60 | Lower-casing the name or the term beforehand changes no search result. |
| Forms.Register | src/components/PlayerRegistration.jsx:29-77 | Only an empty name sends nothing; a name of spaces is sent. Every registration carries status Pending. The multipart path, which sends the file instead of an image URL, is taken exactly when "upload" is chosen and a file is present; otherwise the typed URL is sent. The reset clears name, price, URL and file and keeps role and styles. |
| Forms.RegistrationNeedsApproval | src/components/PlayerRegistration.jsx:44-63 | A registration is stored Pending and is never staged. When a file went along, the image is the upload URL of the stored name: the arrival time, a dash, and the file's own name. Once approved the player is Unsold, eligible, and has no team. |
| Forms.BlankNameOnlyRegisters | src/components/PlayerRegistration.jsx:31 | A name of spaces is refused by the admin form but accepted by the public one. |
| Forms.AddTeam | src/components/TeamManager.jsx:15-28 | A blank name sends nothing. Otherwise the team is posted with budget millions × 1,000,000, or a null budget when the field was emptied, and with the trimmed logo URL, or a name-seeded logo when that is blank. The form then resets to '', '' and 10 whatever the server answers. |
| Forms.FormTeamStartsFull | src/components/TeamManager.jsx:19-23 | A team added through the form is created exactly when the budget field is filled in. It then starts with its whole purse and always has a non-empty logo, and a typed logo is stored without surrounding whitespace. |
| Forms.EmptyBudgetLosesTeam | src/components/TeamManager.jsx:15-28 | With the budget field emptied, the form still resets to its initial values while the server refuses the null budget, so no team is created. |
| Text.Trim | src/components/TeamManager.jsx:17 | The trimmed string is empty exactly when the input is whitespace only. Otherwise it starts and ends with non-whitespace and sits in the input with only whitespace around it. |
| Text.Contains | src/components/PlayerManager.jsx:60 | `includes` holds exactly when the term occurs at some position of the name. |
| Records.FindTeam | src/components/AuctionRoom.jsx:63 | `find` by id yields a team exactly when one has that id, and then the first such team. |

## Left out

- Rendering, animation, confetti drawing, Tailwind classes, and the timer ring's geometry are left out. Currency formatting with `Intl.NumberFormat` and the progress-bar percentages are left out as well. These are display and floating-point work; only the decisions behind them are modelled: what is shown, the celebration edge, highlighting, and the red-clock threshold `Projector.Urgent`.
- `parseFloat(basePrice) * 1000000` in the player forms: the price is taken as whole millions, so fractional millions are not modelled. Neither is an emptied price field, which `parseFloat` turns into NaN: as JSON it is sent as null and the server refuses the player on NOT NULL, while the registration form's multipart path sends the text 'NaN'; both forms reset either way.
- Forms.AddTeam: `parseInt` of the budget field is taken as the whole number typed; an emptied field is modelled (a null budget), but the truncation of a decimal entry such as '12.5' to 12 is not.
- `fetch`, the context's refetch after each mutation, and the ordering of replies: the session and views take the lists as inputs, and `Integration.Execute` applies one request at a time.
- The projector tab's freshness: it loads the player and team lists once when it opens and performs no mutations, so it never refetches. Its live feed, top buys and team cache are therefore as old as the tab. The Projector members take whatever lists the tab holds and say nothing about how current they are.
- The broadcast channel itself and real time: a message is a value, and a second is an explicit `Tick`.
- The SQLite engine and multer's file storage.
  - The upload store names a file by its arrival time, a dash and its own name; the arrival time is an input.
  - Row order of SELECT is not modelled: GET `/api/teams` returns a map keyed by id.
  - A JSON null `soldPrice` in a PUT is not modelled: price is an `Option<int>`.
- bcrypt and login: `Api.Signup` takes the hash function as a parameter and does not model hashing.
- Concurrent sales from several tabs: the server handles requests one at a time.
- The one-off scripts `server/migrate_style.js`, `server/check_db.js` and `server/debug_put.js`.
- AuctionRoom.NextPlayer: requires an eligible player. With none, the source calls `startAuction(null)` and throws on `null.basePrice`, so that crash is not modelled.
- Non-string JSON values (numbers or booleans sent as `status` or `style`) are not modelled. Truthiness is modelled for strings only.
- Text.Lower: lower-cases ASCII letters only, not full Unicode case mapping, so `Forms.SearchIgnoresCase` speaks of ASCII case only.
- Forms.Displayed: the list keeps the tab's order, as `filter` does, but the contract states membership and multiplicity only, not that order.
- Lists.SortDescending: the JavaScript sort is stable, and that stability is not stated. The contract gives the order and the permutation only.
- The projector's summary toggle button and the stage layout are not modelled beyond `Projector.SummaryVisible` (waiting always shows the summary).

## Findings

| source | as written | input that shows it | evidently intended | confidence | as-written member | corrected member |
|---|---|---|---|---|---|---|
| src/components/SummaryDashboard.jsx:24 | The role rows are labelled 'Batsman', 'Bowler', 'All Rounder' and 'Wicket Keeper' and compared with `===` against the stored role. Both forms store 'All-Rounder', with a hyphen, so the third row always reads 0/0 and all-rounders are counted under no row. | One player with role 'All-Rounder': all four rows count 0 of 1 player. | Label the third row 'All-Rounder', so every player entered through the forms is counted in exactly one row. | not executed | Dashboard.AllRounderUncounted | Dashboard.FixedStatsCoverPlayers |

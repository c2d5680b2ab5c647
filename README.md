# Clan bingo client, modelled in Dafny

This project models the client of a clan "bingo" web application. An admin
creates an event: a square board of tiles (tasks worth points, some of them
hidden "mystery" tiles) and between two and eight coloured teams. Players pick
a profile name and join a team. They submit a screenshot for a tile, and an
admin approves or rejects the submission. Approved submissions mark tiles on
the board and count towards the team's score. Teams also spend powerups:
double points, reveal a mystery tile, steal another team's completion, and
block a tile for another team. Around this sit a player-statistics page with
badges, a profile page, a team page, two chats, an activity feed, a countdown
timer, invitations, admin dialogs for players, powerups and roles, and the
router that picks the page from the URL.

The hosted backend is a `Store` class with one sequence per record kind
(events, teams, completions, memberships, invitations, profiles, chat
messages). Every create, update and delete the client performs is a method
that rewrites one of those sequences, and its `ensures` states the whole new
collection. Each page or dialog is one Dafny module. Page state that outlives
a render (selected team, open dialogs, form fields) is a class whose methods
are the event handlers. Pure derivations (filters, sorts, badges, board
geometry, scores) are functions with lemmas about them.

JavaScript semantics are written out where they matter:
- `x || d` on an absent or empty value (`OrElse`, `OrZero`);
- `trim` and `toLowerCase` on the ASCII letters;
- `padStart`, `slice` and `reverse`;
- `Array.prototype.sort` with a numeric comparator, which is a stable sort, proved sorted, a permutation and stable;
- `Math.floor` and `%` on non-negative operands;
- `parseInt` as an optional number.

Several behaviours of the code are stated as proved facts rather than hidden:
- a team without a captain e-mail shows its edit controls to a visitor who is not signed in (`TeamPageView.EditPermission`);
- approving a submission that has no points clears the team's cached score (`Scoring.ApprovalWithoutPointsLosesTotal`);
- approving from the event page, or stealing a completion, leaves the cached score out of step with the approved submissions (`Scoring.StatusOnlyApprovalBreaksConsistency`, `Scoring.StealBreaksConsistency`);
- saving the powerup dialog drops every counter key it does not edit, such as the `steal_tile` key that event creation stores (`ManagePowerupsDialog.SaveDropsOtherKeys`, `CreateEventPage.StartingCounts`);
- a profile rename does not check that the name is free (`UserProfilePage.RenameCanDuplicate`);
- the statistics page never awards the two event badges, so its badge filter for them gives an empty table, while the profile page awards them (`PlayerStatsPage.AggregateStats`, `PlayerStatsPage.EventFilterEmpty`, `UserProfilePage.ProfileShowsEventRookie`; see "## Findings");
- invitation and membership matching compares e-mail addresses exactly, while the invite dialog stores them lowercased (`PendingInvitationsPanel.ListedExact`, `InviteDialog.DecideCases`).

## Model

| member | source | states |
|---|---|---|
| Common.OrElse | src/pages/BingoEvent.jsx:112 | `a \|\| d`: the value when present and non-empty, the default otherwise |
| Common.TrimEmptyIffAllSpace | src/components/profile/ProfileSetupModal.jsx:46 | a string is blank after `trim` exactly when every character is white space |
| Common.ToLower | src/components/invitations/InviteModal.jsx:72 | `toLowerCase()` keeps the length and lowers each character in place |
| Common.ToLowerIdempotent | src/components/invitations/InviteModal.jsx:72 | lower-casing twice is lower-casing once |
| Common.NatToStringRoundTrip | src/components/bingo/EventTimer.jsx:51 | the decimal digits of `String(n)` read back as n |
| Common.IntToStringInjective | src/components/bingo/RevealMysteryModal.jsx:64 | distinct integers render as distinct strings |
| Common.PadTwo | src/components/bingo/EventTimer.jsx:51 | `padStart(2, '0')` gives at least two characters and pads only short strings, with zeros on the left |
| Common.Take | src/pages/UserProfile.jsx:276 | `slice(0, n)` is the prefix of length min(n, length) |
| Common.Reverse | src/components/chat/ClanChat.jsx:31 | `reverse()` on a copy puts element i at position length-1-i |
| Common.Keep | src/pages/AdminPanel.jsx:98-100 | `filter` keeps exactly the elements satisfying the test, and never more than the list holds |
| Common.KeepAppend | src/pages/AdminPanel.jsx:98-100 | filtering distributes over concatenation |
| Common.Without | src/pages/Home.jsx:74-79 | deleting every record whose id is listed leaves exactly the other records |
| Common.WithoutAll | src/pages/PlayerStats.jsx:50-52 | deleting the ids of every record leaves nothing |
| Common.UpdateWhere | src/pages/AdminPanel.jsx:70 | an update by id changes exactly the records with that id, through the patch, and keeps the length |
| Common.UpdateWhereUnion | src/pages/PlayerStats.jsx:55-60 | for a patch that keeps ids and is idempotent, updating one set of ids and then another equals updating their union |
| Entities.SenderName | src/components/chat/ClanChat.jsx:59 | `display_name \|\| full_name \|\| 'Player'`: the display name when non-empty, else the full name when non-empty, else 'Player', which is also the result with no account; never empty |
| Entities.WithStatus | src/pages/AdminPanel.jsx:98-100 | the filter by status keeps exactly the submissions with that status |
| Entities.OfTeam | src/pages/TeamPage.jsx:47-51 | the filter by team keeps exactly that team's submissions |
| Entities.PointsSumAppend | src/pages/TeamPage.jsx:122 | `reduce(sum + (points_awarded \|\| 0))` distributes over concatenation |
| Entities.FindTile | src/pages/BingoEvent.jsx:269 | `find` returns a tile of the list carrying the id, and None exactly when no tile has it |
| Entities.FindTileFirst | src/pages/BingoEvent.jsx:269 | when the tile at k is the first with the id, `find` returns exactly that tile |
| Entities.TaskOf | src/pages/TeamPage.jsx:124-126 | the found tile's task when it is non-empty, 'Unknown tile' when no tile has the id, and never empty |
| Entities.FindTeam | src/components/bingo/BingoBoard.jsx:17 | `find` returns a team of the list carrying the id, and None exactly when no team has it |
| Entities.FindTeamFirst | src/components/bingo/BingoBoard.jsx:17 | when the team at k is the first with the id, `find` returns exactly that team |
| Entities.TeamsOfEvent | src/pages/Home.jsx:71 | exactly the teams of the event |
| Entities.CompletionsOfEvent | src/pages/Home.jsx:72 | exactly the completions of the event |
| Store.ResetScoreIdempotent | src/pages/PlayerStats.jsx:55-60 | the reset patch keeps the team's id, and applying it twice is applying it once |
| Store.Store.CreateCompletion | src/api/entities.js:8 | a created record is appended and nothing else changes |
| Store.Store.UpdateTeam | src/api/entities.js:6 | an update rewrites exactly the records with that id through the patch |
| Store.Store.DeleteCompletions | src/pages/PlayerStats.jsx:50-52 | the delete loop removes exactly the listed completions' ids |
| Store.Store.ResetTeams | src/pages/PlayerStats.jsx:55-60 | the reset loop applies the reset patch to exactly the listed teams' ids |
| Store.Store.DeleteTeams | src/pages/Home.jsx:74-76 | the delete loop removes exactly the listed teams' ids |
| Sorting.SortDescSortedPermutation | src/components/bingo/Leaderboard.jsx:8 | the descending numeric sort is ordered by key and is a permutation of its input |
| Sorting.SortDescStable | src/components/bingo/Leaderboard.jsx:8 | elements with equal keys keep their input order |
| Sorting.SortAscSortedPermutation | src/components/chat/TeamChat.jsx:46-48 | the ascending sort is ordered by key and is a permutation of its input |
| Sorting.SortAscStable | src/pages/PlayerStats.jsx:124-128 | the ascending sort keeps equal keys in input order |
| Sorting.WithKeyNegated | src/pages/PlayerStats.jsx:127 | negating the key keeps each equal-key group unchanged |
| Board.BoardSize | src/components/bingo/BingoBoard.jsx:44 | `ceil(sqrt(n)) \|\| 5`: 5 for an empty board, otherwise the least side whose square holds n tiles |
| Board.BoardSizeOfSquare | src/components/bingo/BingoBoard.jsx:44 | a board of m*m tiles is m tiles wide |
| Board.GetAdjacentTileIds | src/components/bingo/BingoBoard.jsx:46-57 | the push loop returns up, down, left and right, each only when it stays on the board |
| Board.RowColOnBoard | src/components/bingo/BingoBoard.jsx:47-48 | row and column of an on-board id lie in the grid and recompose the id |
| Board.NeighboursAreGridAdjacent | src/components/bingo/BingoBoard.jsx:46-57 | for an on-board cell, j is listed exactly when j is on the board and shares a side with it |
| Board.AdjacentIsNeighbour | src/components/bingo/BingoBoard.jsx:46-57 | every on-board cell sharing a side with the tile is listed |
| Board.NeighboursSymmetric | src/components/bingo/BingoBoard.jsx:46-57 | adjacency is symmetric |
| Board.NeighboursInRange | src/components/bingo/BingoBoard.jsx:46-57 | every listed neighbour of an on-board cell is on the board |
| Board.CompletionForTile | src/components/bingo/BingoBoard.jsx:12-14 | the first approved completion of the tile, and None exactly when there is none |
| Board.CompletionForTileAppend | src/components/bingo/BingoBoard.jsx:12-14 | later completions never change which completion marks a tile already marked |
| Board.TeamColor | src/components/bingo/BingoBoard.jsx:16-19 | the found team's colour when it is non-empty; '#888888' for an unknown team or one without a colour |
| Board.GetBlockedInfo | src/components/bingo/BingoBoard.jsx:21-33 | blocked exactly when an entry of the viewing team names the tile, with the colour of the first such entry; no colour when not blocked |
| Board.AnyOwned | src/components/bingo/BingoBoard.jsx:38-41 | `some` holds exactly when one of the ids is first marked by the viewing team |
| Board.CanRevealMystery | src/components/bingo/BingoBoard.jsx:35-42 | only an unrevealed mystery tile can be revealed, exactly when a neighbour is first marked by the viewing team |
| Board.CanRevealNeedsTeam | src/components/bingo/BingoBoard.jsx:40 | with no team selected nothing can be revealed |
| Board.AppendKeepsRevealClosed | src/components/bingo/BingoBoard.jsx:35-42 | once every neighbour is marked by other teams, later completions never open the reveal |
| Scoring.ApprovedPointsIsFilteredSum | src/pages/TeamPage.jsx:120-122 | the recomputed score equals the page's filter-then-reduce over the team's submissions |
| Scoring.ApprovedPointsAppend | src/pages/TeamPage.jsx:122 | the recomputed score distributes over concatenation |
| Scoring.StatusChangeEffect | src/pages/AdminPanel.jsx:70 | with distinct ids, changing one not-yet-approved submission's status adds its points to its team's recomputed score exactly when the new status is approved |
| Scoring.Credit | src/pages/AdminPanel.jsx:76 | `(total_points \|\| 0) + points`: the sum when points are present, and a value read as zero (NaN) when they are absent |
| Scoring.ApprovalKeepsConsistent | src/pages/AdminPanel.jsx:68-80 | admin-panel approval of a pending submission with points keeps the cached score equal to the recomputed one |
| Scoring.RejectionKeepsConsistent | src/pages/AdminPanel.jsx:70 | rejecting a pending submission keeps a consistent team consistent |
| Scoring.ApprovalWithoutPointsLosesTotal | src/pages/AdminPanel.jsx:76 | approving a submission without points breaks consistency for a team with a positive score |
| Scoring.StatusOnlyApprovalBreaksConsistency | src/pages/BingoEvent.jsx:443-447 | approving from the event page writes only the status, so a consistent team with points to gain becomes inconsistent |
| Scoring.StealBreaksConsistency | src/pages/BingoEvent.jsx:251-271 | a steal adds the copied points to the recomputed score but not to the cached one |
| Scoring.ResetRestoresConsistency | src/pages/BingoEvent.jsx:491-502 | after a team reset the team is consistent with the event's remaining completions |
| BingoEventPage.SpendPowerup | src/pages/BingoEvent.jsx:180-201 | a positive counter drops by one and its cooldown is stamped; a zero or negative counter changes nothing; no other counter or field changes |
| BingoEventPage.SpentTeamsEffect | src/pages/BingoEvent.jsx:180-201 | with distinct ids, only the acting team's record is spent |
| BingoEventPage.SpentTeamsKeepsScores | src/pages/BingoEvent.jsx:180-201 | spending a powerup never touches scores, completed tiles, blocks or members |
| BingoEventPage.Stolen | src/pages/BingoEvent.jsx:255-264 | the stolen copy keeps tile, points and screenshot, is approved, belongs to the acting team, is not doubled, and names '<user> (stolen)' |
| BingoEventPage.RevealTile | src/pages/BingoEvent.jsx:241-243 | tiles with the id become revealed and every other tile is unchanged |
| BingoEventPage.RevealTileProperties | src/pages/BingoEvent.jsx:241-243 | after the reveal every tile with the id is revealed, ids keep their places, and revealing again changes nothing |
| BingoEventPage.EntriesForZero | src/pages/BingoEvent.jsx:281-284 | no entry names the tile exactly when the block check finds it unblocked |
| BingoEventPage.AddBlockIdempotent | src/pages/BingoEvent.jsx:280-290 | afterwards the tile is blocked, a tile named at most once is named once, and blocking again changes nothing |
| BingoEventPage.FindTeamUnique | src/pages/BingoEvent.jsx:277 | with distinct ids, looking a team up by its id finds that team |
| BingoEventPage.FindEvent | src/pages/BingoEvent.jsx:71-76 | a found event is in the list with the page's id; None means no event has that id |
| BingoEventPage.EventPage.constructor | src/pages/BingoEvent.jsx:38-53 | nothing selected, locked or open on arrival |
| BingoEventPage.EventPage.Username | src/pages/BingoEvent.jsx:112 | the name a submission or membership carries is never empty |
| BingoEventPage.EventPage.SyncLock | src/pages/BingoEvent.jsx:88-108 | the player's first membership of the event, when its team is among the event's teams, selects and locks that team; otherwise nothing changes |
| BingoEventPage.EventPage.HandleSelectTeam | src/pages/BingoEvent.jsx:110-146 | a locked page or a visitor with no account and no non-empty session id does nothing; otherwise a membership is created, the name is added to the team's members when missing, and the team is selected and locked |
| BingoEventPage.EventPage.AdminAssignPlayer | src/pages/BingoEvent.jsx:299-320 | a membership with the name and its placeholder e-mail is created; a team of this event that lacks the name gets it added to its members; nothing else changes |
| BingoEventPage.ManualEmail | src/pages/BingoEvent.jsx:304 | the placeholder e-mail is the name followed by '@manual' |
| BingoEventPage.ManualEmailsDistinct | src/pages/BingoEvent.jsx:304 | distinct names get distinct placeholder e-mails |
| BingoEventPage.AssignAddsName | src/pages/BingoEvent.jsx:308-316 | with distinct ids, the name ends up among the team's members, and no other field or team changes |
| BingoEventPage.EventPage.UpdateTeamPowerups | src/pages/BingoEvent.jsx:180-201 | the store's teams become the spent team list for the selected team |
| BingoEventPage.Submission | src/pages/BingoEvent.jsx:158-167 | the new submission is pending, for the event, team and tile, and worth twice the points when doubled |
| BingoEventPage.EventPage.SubmitCompletion | src/pages/BingoEvent.jsx:155-178 | with a team, the pending submission is appended and, when doubled, one double-points use is spent; without a team nothing changes |
| BingoEventPage.EventPage.HandleTileClick | src/pages/BingoEvent.jsx:203-225 | no team or a hidden mystery tile does nothing; an armed block opens the block dialog for the tile; otherwise the submit dialog opens for the tile |
| BingoEventPage.EventPage.HandleUsePowerup | src/pages/BingoEvent.jsx:227-237 | reveal and steal open their dialogs; any other kind becomes the armed powerup |
| BingoEventPage.EventPage.HandleRevealMystery | src/pages/BingoEvent.jsx:239-249 | with the event loaded, the event's tiles with that id are revealed and one reveal use is spent; otherwise nothing changes |
| BingoEventPage.EventPage.HandleStealCompletion | src/pages/BingoEvent.jsx:251-271 | with a team, the stolen copy is appended and one steal use is spent |
| BingoEventPage.EventPage.HandleBlockTile | src/pages/BingoEvent.jsx:273-297 | with a chosen tile and both teams known, the target team gets an entry with the acting team's colour unless the tile is already blocked for it; a block use is spent either way, and the armed powerup and the chosen tile are cleared; otherwise nothing changes |
| BingoEventPage.EventPage.OnAdminAction | src/pages/BingoEvent.jsx:443-447 | only the submission's status changes |
| BingoEventPage.EventPage.OnReset | src/pages/BingoEvent.jsx:477-490 | a declined confirmation (the leaderboard's `confirm`, Leaderboard.jsx line 26) changes nothing; a confirmed one resets every team of the event and deletes every completion of the event |
| BingoEventPage.EventPage.OnResetTeam | src/pages/BingoEvent.jsx:491-502 | a declined confirmation (Leaderboard.jsx line 98) changes nothing; a confirmed one resets the team and deletes exactly its completions in this event |
| BingoEventPage.ResetZeroesEventTeams | src/pages/BingoEvent.jsx:477-483 | after the reset every team of the event has score zero and no completed tiles, and other teams are unchanged |
| BingoEventPage.ResetClearsEvent | src/pages/BingoEvent.jsx:484-487 | after the reset no completion of the event remains |
| AdminPanelPage.PartitionDisjoint | src/pages/AdminPanel.jsx:98-100 | the three tabs are disjoint and each holds exactly the submissions with its status |
| AdminPanelPage.WithStatusAppend | src/pages/AdminPanel.jsx:98-100 | filtering by status distributes over concatenation, so each tab keeps fetch order |
| AdminPanelPage.ExactlyOneStatusButton | src/pages/AdminPanel.jsx:213-230 | exactly one of Start and End is offered, including before the event has loaded |
| AdminPanelPage.StatusAfterButton | src/pages/AdminPanel.jsx:213-230 | the offered button completes an active event and activates any other |
| AdminPanelPage.AdminPanel.UpdateSubmission | src/pages/AdminPanel.jsx:68-87 | the status is written; on approval of a selected submission, a team found among the event's teams is credited with the points and the tile; the selection is cleared |
| AdminPanelPage.AdminPanel.Approve | src/pages/AdminPanel.jsx:150-165 | the approve button sends the submission's team, points and tile as approved |
| AdminPanelPage.AdminPanel.Reject | src/pages/AdminPanel.jsx:166-179 | the reject button changes only the status |
| AdminPanelPage.AdminPanel.UpdateEventStatus | src/pages/AdminPanel.jsx:89-92 | only the event's status changes |
| AdminPanelPage.ApprovalTeamRecord | src/pages/AdminPanel.jsx:73-78 | with distinct ids, the credited record is the team's record with the score and the tile added |
| CreateEventPage.TileOf | src/pages/CreateEvent.jsx:85-93 | the new tile's id is its position; double points wins over mystery for the type; a mystery tile starts hidden |
| CreateEventPage.AddTile | src/pages/CreateEvent.jsx:81-102 | a blank task or a full board changes nothing; otherwise one tile is appended and the inputs are reset |
| CreateEventPage.AddTileKeepsShape | src/pages/CreateEvent.jsx:81-102 | adding keeps ids equal to positions and never grows the list past a full board |
| CreateEventPage.RemoveTile | src/pages/CreateEvent.jsx:104-108 | the tile at the index is dropped and the rest are re-indexed |
| CreateEventPage.RemoveUndoesAdd | src/pages/CreateEvent.jsx:81-108 | removing the tile just added restores the list |
| CreateEventPage.CompleteBoardHasChosenSize | src/pages/CreateEvent.jsx:112-114 | an accepted board of the chosen size is drawn that size wide |
| CreateEventPage.AddTeam | src/pages/CreateEvent.jsx:151-158 | at most eight teams; a new team is named 'Team n+1' and takes the palette colour at the list length |
| CreateEventPage.RemoveTeam | src/pages/CreateEvent.jsx:160-163 | at least two teams remain; otherwise the team at the index is dropped |
| CreateEventPage.TeamCountBounded | src/pages/CreateEvent.jsx:151-163 | the form always holds between two and eight teams |
| CreateEventPage.AddedTeamsTakePalette | src/pages/CreateEvent.jsx:45-48 | teams added to the initial two take the palette in order |
| CreateEventPage.RemoveThenAddRepeatsColour | src/pages/CreateEvent.jsx:155 | colours follow the list length, so removing and adding can repeat a colour in use |
| CreateEventPage.UpdateTeam | src/pages/CreateEvent.jsx:165-169 | the team object at the index has the field set in place, and nothing else changes |
| CreateEventPage.InitialStatus | src/pages/CreateEvent.jsx:122 | upcoming when the start is later than now, active otherwise |
| CreateEventPage.DefaultTeam | src/pages/CreateEvent.jsx:127-141 | a created team has score zero, no completed tiles, no blocks, and the draft's name, colour and members |
| CreateEventPage.CreatedStealHasNoButton | src/pages/CreateEvent.jsx:135-139 | a created team holds one `steal_tile` use, yet the powerup bar lists four powerups and none of them is `steal_tile` |
| CreateEventPage.StartingCounts | src/pages/CreateEvent.jsx:135-139 | a created team holds two double-points uses, one block and one `steal_tile`, but no reveal and no `steal_completion`, the key the client spends |
| CreateEventPage.CreateEvent | src/pages/CreateEvent.jsx:110-149 | an incomplete board is refused and nothing is written; otherwise the event and one team per draft are created |
| HomePage.ResolutionOrder | src/pages/Home.jsx:36-49 | the session's profile always wins; the account's e-mail counts only when there is none; the result is a stored profile; none exactly when neither matches |
| HomePage.HomeState.InitSession | src/pages/Home.jsx:21-28 | a saved id is reused; otherwise 'session_' plus the random suffix is saved and used |
| HomePage.HomeState.SettleProfile | src/pages/Home.jsx:51-61 | the first profile found becomes the player's and is remembered, or the setup dialog opens |
| HomePage.DeleteEvent | src/pages/Home.jsx:68-86 | the event's teams, then its completions, then the event record are deleted |
| HomePage.DeleteClicked | src/pages/Home.jsx:213-220 | a click that is not an admin's confirmed click on a completed event changes nothing; such a click deletes the event's teams, its completions and the event record |
| HomePage.CascadeLeavesNothing | src/pages/Home.jsx:68-82 | afterwards no team, completion or event of the event remains, and with distinct ids every other team and completion does |
| PagesIndex.LastSegment | src/pages/index.jsx:41 | `split('/').pop()`: the longest slash-free suffix |
| PagesIndex.BeforeQuery | src/pages/index.jsx:42-44 | the longest prefix before the first '?' |
| PagesIndex.StripSlash | src/pages/index.jsx:38-40 | one trailing slash is removed |
| PagesIndex.FindPage | src/pages/index.jsx:46 | a key matching ignoring case, and None exactly when no key matches |
| PagesIndex.CurrentPage | src/pages/index.jsx:37-48 | always a page key; 'BingoEvent' when nothing matches; otherwise the page matching the segment ignoring case |
| PagesIndex.KeysDistinctIgnoringCase | src/pages/index.jsx:19-35 | no two page keys agree ignoring case |
| PagesIndex.PathSelectsPage | src/pages/index.jsx:37-48 | a path ending in a page name in any case, with a query or one trailing slash, selects that page |
| PagesIndex.FindsUniqueKey | src/pages/index.jsx:46 | among keys distinct ignoring case, the search finds the one that matches |
| PendingInvitationsPanel.ListedExact | src/components/invitations/PendingInvitations.jsx:11-19 | the list holds exactly the pending invitations addressed to the account's exact e-mail, and none without an e-mail |
| PendingInvitationsPanel.RendersIffSomethingPending | src/components/invitations/PendingInvitations.jsx:44 | the panel shows exactly when a signed-in account has a pending invitation |
| PendingInvitationsPanel.Joined | src/components/invitations/PendingInvitations.jsx:25-30 | the new membership has the invitation's event and team, the account's e-mail, and the display name, full name or 'Player' |
| PendingInvitationsPanel.Respond | src/components/invitations/PendingInvitations.jsx:21-42 | accepting creates the membership first; either answer is written on the invitation |
| PendingInvitationsPanel.AnsweredLeavesList | src/components/invitations/PendingInvitations.jsx:21-42 | after an answer the invitation leaves the list and every other listed invitation stays |
| PendingInvitationsPanel.AcceptedIsMember | src/components/invitations/PendingInvitations.jsx:23-30 | after accepting, the invite dialog's membership check finds the invitee |
| ProfileSetupDialog.ValidationError | src/components/profile/ProfileSetupModal.jsx:42-62 | blank, then under 3, then over 20 characters, each with its message; None exactly for a valid name |
| ProfileSetupDialog.NewProfile | src/components/profile/ProfileSetupModal.jsx:23-27 | the name and session are stored, an empty e-mail is stored as none, and the new profile is neither admin nor banned |
| ProfileSetupDialog.CreationKeepsNamesUnique | src/components/profile/ProfileSetupModal.jsx:17-21 | creating only free names keeps usernames unique, and the same name is then refused |
| ProfileSetupDialog.SetupForm.HandleSubmit | src/components/profile/ProfileSetupModal.jsx:15-62 | an invalid name shows its message, a taken name shows 'Username already taken', and otherwise the profile is appended and returned |
| InviteDialog.DecideCases | src/components/invitations/InviteModal.jsx:15-77 | blank and self-invitation are refused with their messages; sent exactly when neither holds and the lowercased address has no pending invitation or membership; a sent invitation is pending, lowercased and from the sender |
| InviteDialog.NoSecondInvite | src/components/invitations/InviteModal.jsx:18-27 | once sent, the same address differing only in letter case is refused for the same team |
| InviteDialog.InviteForm.HandleSubmit | src/components/invitations/InviteModal.jsx:65-77 | the error is reset, a refusal shows its message and stores nothing, and a sent invitation is appended and the field cleared |
| PlayerStatsPage.BadgeCatalogue | src/pages/PlayerStats.jsx:13-21 | every badge is in the catalogue, and the catalogue is in rank order |
| PlayerStatsPage.KeepInBadgeOrder | src/pages/PlayerStats.jsx:103 | filtering the catalogue keeps badges in catalogue order |
| PlayerStatsPage.EarnedBadges | src/pages/PlayerStats.jsx:13-21 | the intended badge list: exactly the badges whose threshold the totals meet, with the event count a number, in catalogue order; the profile page computes this list, the statistics page does not (see Findings) |
| PlayerStatsPage.TallyBadges | src/pages/PlayerStats.jsx:103 | the list the statistics page computes from the tally, whose `events` is still a Set: exactly the tile and point badges whose thresholds hold, never an event badge, in catalogue order |
| PlayerStatsPage.TallyBadgesDropEventBadges | src/pages/PlayerStats.jsx:103 | for every event count, the page's list is the intended list without the two event badges; with one event, or five, the intended list holds "first_event", or "five_events", and the page's does not |
| PlayerStatsPage.SameBadges | src/pages/PlayerStats.jsx:13-21 | two badge lists in catalogue order holding the same badges are equal |
| PlayerStatsPage.FewTilesBadges | src/pages/PlayerStats.jsx:14-20 | one tile and under 100 points: the page's list is exactly ["first_tile"], the intended list with one event is ["first_tile", "first_event"] |
| PlayerStatsPage.OneCompletionRow | src/pages/PlayerStats.jsx:85-104 | one approved completion under 100 points gives the row (name, points, 1 tile, 1 event, ["first_tile"]), while the thresholds with one event give ["first_tile", "first_event"] |
| PlayerStatsPage.AggregateStats | src/pages/PlayerStats.jsx:82-105 | one row per distinct player name, with that name's points, tile count and distinct events, and the badges computed from the tally, so no row holds "first_event" or "five_events"; the tile counts sum to the number of completions |
| PlayerStatsPage.FinishRows | src/pages/PlayerStats.jsx:82-105 | the finished rows have distinct names, one per player, each with that player's points, tiles and distinct events, and the tally's badges with no event badge; the tiles sum to the completions |
| PlayerStatsPage.FinishKeepsTiles | src/pages/PlayerStats.jsx:100-104 | the rows' tile counts sum to the number of completions |
| PlayerStatsPage.AbsentName | src/pages/PlayerStats.jsx:85-98 | a name with no completion has no points, no tiles and no events |
| PlayerStatsPage.FilteredExactly | src/pages/PlayerStats.jsx:112-121 | the filters keep exactly the rows whose name contains the query ignoring case (all for an empty query) and that hold the chosen badge |
| PlayerStatsPage.AbsentBadgeFilterEmpty | src/pages/PlayerStats.jsx:119-121 | the badge filter for a badge that no row holds gives an empty table, whatever the query |
| PlayerStatsPage.EventFilterEmpty | src/pages/PlayerStats.jsx:119-121 | on rows without event badges, as the page builds them, filtering by "first_event" or "five_events" gives an empty table |
| PlayerStatsPage.BadgeIdInjective | src/pages/PlayerStats.jsx:13-21 | two badges have the same id exactly when they are the same badge |
| PlayerStatsPage.ViewSortedPermutation | src/pages/PlayerStats.jsx:108-131 | the table is the filtered rows reordered by the chosen field in the chosen direction, stably |
| PlayerStatsPage.ToggleSort | src/pages/PlayerStats.jsx:133-140 | the same field flips the direction; another field is chosen descending |
| PlayerStatsPage.ToggleTwice | src/pages/PlayerStats.jsx:133-140 | toggling the same field twice restores the order |
| PlayerStatsPage.ResetPlayer | src/pages/PlayerStats.jsx:65-74 | a declined `confirm` changes nothing; a confirmed reset deletes every completion with that player name |
| PlayerStatsPage.ResetPlayerClears | src/pages/PlayerStats.jsx:65-74 | afterwards no completion carries the name |
| PlayerStatsPage.ResetLeaderboard | src/pages/PlayerStats.jsx:42-63 | a declined `confirm` changes neither completions nor teams; a confirmed reset deletes every completion and resets every team |
| PlayerStatsPage.ResetLeaderboardClears | src/pages/PlayerStats.jsx:42-63 | afterwards there is no completion and every team holds its reset record |
| UserProfilePage.TotalsMatchStats | src/pages/UserProfile.jsx:78-81 | on one player's approved completions, the profile's totals equal the statistics page's row for that player |
| UserProfilePage.EarnedBadges | src/pages/UserProfile.jsx:84-91 | the chain of pushes equals the catalogue filter on the profile's own totals, where the event count is a number |
| UserProfilePage.ProfileShowsEventRookie | src/pages/UserProfile.jsx:79-91 | for a player with an approved completion, the profile's list holds "first_event" while the statistics row for the same name, built from the tally, does not |
| UserProfilePage.BadgesMonotone | src/pages/UserProfile.jsx:84-91 | a higher badge of a kind implies the lower one |
| UserProfilePage.BadgeClick | src/pages/UserProfile.jsx:233-236 | a store is asked for exactly on the owner's click on an earned badge: the selected badge is cleared, another one is selected |
| UserProfilePage.BadgeClickTwice | src/pages/UserProfile.jsx:233-236 | a click never stores an unearned badge, and two clicks restore the choice |
| UserProfilePage.ClickBadge | src/pages/UserProfile.jsx:54-57 | the requested choice is written to the viewer's profile, and nothing otherwise |
| UserProfilePage.UpdateDisplayName | src/pages/UserProfile.jsx:40-43 | a blank name writes nothing; otherwise the viewer's profile takes the typed name |
| UserProfilePage.RenameKeepsOwnProfile | src/pages/UserProfile.jsx:40-52 | the renamed record carries the new name, so the redirected page is the viewer's own, and other records are unchanged |
| UserProfilePage.RenameCanDuplicate | src/pages/UserProfile.jsx:40-43 | renaming to a name another profile holds leaves two profiles with that name |
| UserProfilePage.Recent | src/pages/UserProfile.jsx:276 | at most the first twenty completions, in order; all of them when there are at most twenty |
| LeaderboardView.SortedTeamsOrder | src/components/bingo/Leaderboard.jsx:8 | the teams ordered by points, highest first, as a permutation, ties in input order |
| LeaderboardView.MaxPoints | src/components/bingo/Leaderboard.jsx:9 | `sortedTeams[0]?.total_points \|\| 1`: never zero, at least every team's points, and either 1 or some team's points |
| LeaderboardView.TopIsMax | src/components/bingo/Leaderboard.jsx:8-9 | in the sorted list the first team's points are at least every team's |
| LeaderboardView.RankMarkAt | src/components/bingo/Leaderboard.jsx:52-59 | a trophy for places one to three, the number for later places |
| LeaderboardView.RankMarksDistinct | src/components/bingo/Leaderboard.jsx:52-59 | distinct places get distinct marks |
| TeamPageView.PageFigures | src/pages/TeamPage.jsx:120-122 | the lists hold exactly the team's approved and pending submissions; the points shown equal the recomputed score, and equal the cached score exactly when the team is consistent |
| TeamPageView.TileTask | src/pages/TeamPage.jsx:124-126 | the found tile's task when non-empty; 'Unknown tile' without an event or without the tile; never empty |
| TeamPageView.EditPermission | src/pages/TeamPage.jsx:68-70 | a signed-in user edits exactly when captain or admin; a team without a captain e-mail lets a signed-out visitor edit |
| TeamPageView.Edited | src/pages/TeamPage.jsx:101-103 | a typed value, else the stored one |
| TeamPageView.CustomizationKeepsStored | src/pages/TeamPage.jsx:99-105 | an empty input keeps the stored value, only name, banner and icon change, and saving with no input changes nothing |
| TeamPageView.SaveCustomization | src/pages/TeamPage.jsx:99-105 | the team record is patched with the edited or stored values |
| TeamPageView.SavePinnedMessage | src/pages/TeamPage.jsx:107-109 | the team's pinned message is written |
| TileSubmitDialog.DoubleOfferedMeansSpendable | src/components/bingo/TileSubmitModal.jsx:61 | the double-points option is offered exactly when the event page's spend of a use takes effect, and that spend never takes the counter below zero |
| TileSubmitDialog.FinalPointsRecorded | src/components/bingo/TileSubmitModal.jsx:62 | the points the dialog announces are the points the event page records |
| TileSubmitDialog.SubmitForm.FinishUpload | src/components/bingo/TileSubmitModal.jsx:24-37 | a returned URL is kept; a failed upload keeps the old one; uploading ends |
| TileSubmitDialog.SubmitForm.Submit | src/components/bingo/TileSubmitModal.jsx:39-59 | with a name, a screenshot and a tile the payload is sent and the form cleared; otherwise nothing changes |
| PowerupBarView.Count | src/components/bingo/PowerupBar.jsx:53 | the counter, or 0 without counters or without that key |
| PowerupBarView.Click | src/components/bingo/PowerupBar.jsx:37-42 | a click is forwarded exactly when the count is positive and the bar is enabled |
| PowerupBarView.ClickNeedsEnabledButton | src/components/bingo/PowerupBar.jsx:61-62 | a forwarded click comes from an enabled button; a negative count leaves the button enabled but forwards nothing |
| ManagePowerupsDialog.Four | src/components/admin/ManageTeamPowerupsModal.jsx:26-31 | exactly the four edited keys, each the stored counter or 0 |
| ManagePowerupsDialog.InitialCountersKeys | src/components/admin/ManageTeamPowerupsModal.jsx:22-35 | one counter set per team id, each with the four keys |
| ManagePowerupsDialog.InitialCountersValues | src/components/admin/ManageTeamPowerupsModal.jsx:25-32 | with distinct ids, each set is that team's stored counters |
| ManagePowerupsDialog.Clamp | src/components/admin/ManageTeamPowerupsModal.jsx:52 | `Math.max(0, parseInt(v) \|\| 0)`: never negative; an unparsed or non-positive value is 0, a non-negative one is kept |
| ManagePowerupsDialog.SaveDropsOtherKeys | src/components/admin/ManageTeamPowerupsModal.jsx:38-44 | a saved team holds exactly the four edited keys, so its `steal_tile` counter drops to zero |
| ManagePowerupsDialog.PowerupEditor.Open | src/components/admin/ManageTeamPowerupsModal.jsx:22-35 | opening with teams loads their counters; otherwise nothing changes |
| ManagePowerupsDialog.PowerupEditor.HandleChange | src/components/admin/ManageTeamPowerupsModal.jsx:51-60 | that team's counter of that kind is set to the clamped value, and an unknown team gets a one-key set; nothing else changes |
| ManagePowerupsDialog.PowerupEditor.Save | src/components/admin/ManageTeamPowerupsModal.jsx:37-44 | each listed team's counters are replaced by the edited set |
| StealCompletionDialog.StealableExact | src/components/bingo/StealCompletionModal.jsx:19-21 | exactly the approved completions of other teams (all approved ones without a team) |
| StealCompletionDialog.StealableOrder | src/components/bingo/StealCompletionModal.jsx:19-21 | the offer keeps the order of the list |
| StealCompletionDialog.StealDialog.Select | src/components/bingo/StealCompletionModal.jsx:66 | a click selects that offered completion |
| StealCompletionDialog.StealDialog.Confirm | src/components/bingo/StealCompletionModal.jsx:26-32 | without a selection nothing is sent; otherwise the selection is sent and cleared |
| RevealMysteryDialog.MysteryTilesExact | src/components/bingo/RevealMysteryModal.jsx:16 | exactly the unrevealed mystery tiles, in board order |
| RevealMysteryDialog.RevealedTileLeavesList | src/components/bingo/RevealMysteryModal.jsx:16 | after the page reveals a tile, no tile with its id is offered and other offers stay |
| RevealMysteryDialog.TileLabelReadsBack | src/components/bingo/RevealMysteryModal.jsx:64 | the label names the one-based position |
| RevealMysteryDialog.TileLabelsDistinct | src/components/bingo/RevealMysteryModal.jsx:64 | distinct tiles get distinct labels |
| RevealMysteryDialog.RevealDialog.Select | src/components/bingo/RevealMysteryModal.jsx:56 | a click selects that offered tile |
| RevealMysteryDialog.RevealDialog.Confirm | src/components/bingo/RevealMysteryModal.jsx:18-24 | without a selection nothing is sent; otherwise the tile is sent and the selection cleared |
| BlockTileDialog.OtherTeamsExact | src/components/bingo/BlockTileModal.jsx:9 | every team except the acting one, in order |
| BlockTileDialog.BlockDialog.Select | src/components/bingo/BlockTileModal.jsx:39 | a click selects that target, never the acting team |
| BlockTileDialog.BlockDialog.Confirm | src/components/bingo/BlockTileModal.jsx:11-17 | without a selection (an empty id counts as none) nothing is sent; otherwise the id is sent and cleared; it is never the acting team |
| BingoTileView.Click | src/components/bingo/BingoTile.jsx:37 | a blocked cell swallows the click; any other cell forwards its tile |
| BingoTileView.OverlayColor | src/components/bingo/BingoTile.jsx:50-54 | an overlay colour, never empty, exactly on a blocked cell |
| BingoTileView.OverlayOfEntry | src/components/bingo/BingoTile.jsx:52 | a bare-id entry shows red, an object entry its blocker's colour |
| BingoTileView.RevealHintMeansRevealable | src/components/bingo/BingoTile.jsx:56-62 | the hint shows exactly when the board says the tile can be revealed |
| SubmissionsViewerView.TabsCoverExactlyThreeStatuses | src/components/bingo/SubmissionsViewer.jsx:24-26 | each submission is in the tab of its status and no other |
| SubmissionsViewerView.Actions | src/components/bingo/SubmissionsViewer.jsx:73-86 | approve and reject only for an admin on a pending submission |
| SubmissionsViewerView.ActionMovesSubmission | src/components/bingo/SubmissionsViewer.jsx:73-86 | a press, written by the event page, moves the submission from pending to the chosen tab |
| EventTimerView.Decompose | src/components/bingo/EventTimer.jsx:28-34 | hours below 24, minutes and seconds below 60, and no days under a day |
| EventTimerView.DecomposeRecomposes | src/components/bingo/EventTimer.jsx:28-34 | the shown time is under a second short of the difference and never over it |
| EventTimerView.ShownReadsBack | src/components/bingo/EventTimer.jsx:51 | each field shows at least two digits and reads back as its value |
| EventTimerView.Timer.CalculateTime | src/components/bingo/EventTimer.jsx:15-34 | counts down to the start before it, to the end before that, and shows zero and 'Event ended' afterwards |
| ActivityFeedView.CompletionItemsShape | src/components/bingo/ActivityFeed.jsx:29-44 | one row per completion, in order, each that completion's activity |
| ActivityFeedView.SystemRowsShape | src/components/bingo/ActivityFeed.jsx:47-58 | one system row per message, in order |
| ActivityFeedView.SystemItemsFromSystemMessages | src/components/bingo/ActivityFeed.jsx:47-58 | as many rows as messages that are not chat, each from such a message |
| ActivityFeedView.BuildItems | src/components/bingo/ActivityFeed.jsx:26-58 | the two loops give the completion rows followed by the system rows |
| ActivityFeedView.FeedIsNewestTwenty | src/components/bingo/ActivityFeed.jsx:61 | newest first, at most twenty rows, every row from the items, all items when there are at most twenty, and nothing left out is newer than a row shown |
| ActivityFeedView.CompletionIdsDistinct | src/components/bingo/ActivityFeed.jsx:33-51 | rows of distinct completions have distinct ids, and no completion row shares an id with a message row |
| ActivityFeedView.StatusText | src/components/bingo/ActivityFeed.jsx:79-80 | pending reads 'submitted', approved 'completed', anything else 'rejected' |
| ActivityFeedView.PointsOnlyWhenApproved | src/components/bingo/ActivityFeed.jsx:89-94 | points show only on approved completion rows, '(2x!)' only with them |
| ClanChatView.DisplayedOldestFirst | src/components/chat/ClanChat.jsx:19-31 | at most a hundred messages, all in scope, oldest first |
| ClanChatView.ReverseOfDescIsAsc | src/components/chat/ClanChat.jsx:19-31 | reversing the newest-first list gives oldest first |
| ClanChatView.SendText | src/components/chat/ClanChat.jsx:70-74 | the trimmed draft, sent only when not blank and signed in |
| ClanChatView.Outgoing | src/components/chat/ClanChat.jsx:55-63 | a chat message of the event (and team) with the sender's name and e-mail |
| ClanChatView.BadgeText | src/components/chat/ClanChat.jsx:100-103 | no badge without unread messages, the count up to nine, '9+' beyond |
| ClanChatView.ClanChat.CountChanged | src/components/chat/ClanChat.jsx:34-39 | a closed chat adds the growth to the unread count; the last count is remembered |
| ClanChatView.ClanChat.SetOpen | src/components/chat/ClanChat.jsx:41-46 | opening clears the unread count |
| ClanChatView.ClanChat.HandleSend | src/components/chat/ClanChat.jsx:55-74 | a blank draft or no user sends nothing; otherwise the message is created and the draft cleared |
| TeamChatView.DisplayedOrder | src/components/chat/TeamChat.jsx:46-48 | every message once, oldest first, equal times in fetch order |
| TeamChatView.EnabledButtonSends | src/components/chat/TeamChat.jsx:96-107 | the composer shows an enabled button exactly when the draft would be sent |
| TeamChatView.TeamChat.HandleSend | src/components/chat/TeamChat.jsx:22-40 | a blank draft or no user sends nothing; otherwise the trimmed message is created and the draft cleared |
| ManagePlayersDialog.MembersOfExact | src/components/admin/ManageTeamPlayersModal.jsx:58 | exactly the memberships naming the team |
| ManagePlayersDialog.GroupsExact | src/components/admin/ManageTeamPlayersModal.jsx:56-59 | one section per team, in order, each with exactly its memberships |
| ManagePlayersDialog.Moved | src/components/admin/ManageTeamPlayersModal.jsx:37-42 | the new membership keeps the player's e-mail and name under the new team |
| ManagePlayersDialog.MoveRegroups | src/components/admin/ManageTeamPlayersModal.jsx:32-43 | after a move the player's new record is in the new team's section and no record with the old id remains |
| ManagePlayersDialog.PlayerManager.ToggleSelect | src/components/admin/ManageTeamPlayersModal.jsx:102 | selects the player, or deselects the selected one |
| ManagePlayersDialog.PlayerManager.ChooseTarget | src/components/admin/ManageTeamPlayersModal.jsx:139 | the target is one of the other teams |
| ManagePlayersDialog.PlayerManager.Move | src/components/admin/ManageTeamPlayersModal.jsx:32-51 | a disabled move stores nothing; otherwise the old membership is deleted, the moved one created, and the selection cleared; the target is reset either way |
| ManagePlayersDialog.PlayerManager.Remove | src/components/admin/ManageTeamPlayersModal.jsx:20-30 | only a confirmed removal deletes the membership |
| AdminRolesDialog.FilteredExact | src/components/admin/AdminRoleModal.jsx:57-59 | exactly the profiles whose username contains the search ignoring case; none without a username |
| AdminRolesDialog.BanWindow | src/components/admin/AdminRoleModal.jsx:29-33 | a ban holds for exactly the next 24 hours, an unban lifts it, and toggling the role twice restores the profile |
| AdminRolesDialog.Buttons | src/components/admin/AdminRoleModal.jsx:122-166 | a banned profile gets Unban and Delete, any other the role toggle, Ban and Delete |
| AdminRolesDialog.ToggleRole | src/components/admin/AdminRoleModal.jsx:19-27 | admin rights become the negation of the shown value |
| AdminRolesDialog.Ban | src/components/admin/AdminRoleModal.jsx:29-37 | a confirmed ban stores now plus 24 hours |
| AdminRolesDialog.Unban | src/components/admin/AdminRoleModal.jsx:39-46 | the ban is cleared |
| AdminRolesDialog.DeleteProfile | src/components/admin/AdminRoleModal.jsx:48-55 | only a confirmed delete removes the profile |

## Left out

- The hosted backend SDK, the network and query caching: the backend is the `Store` class, and every request is one atomic method on it. Refetch intervals, cache invalidation and loading states are not modelled.
- Concurrency: handlers run one at a time to completion. Interleaved requests, double clicks while a mutation is pending and races between two browsers are not modelled.
- Failed requests: every write is assumed to succeed. The `onError` messages ('Failed to send invitation', 'Failed to create profile') and thrown-error paths other than the modelled refusals are not modelled.
- Stale closures: the event page's handlers read the acting team from the store, not from a render snapshot (the admin panel's approve button is described under AdminPanelPage.AdminPanel.Approve). `useDoublePowerup` is read before the dialog resets it.
- PlayerStatsPage.AggregateStats: the source keys a plain JavaScript object by the typed player name. The model treats it as a map with no inherited keys, listed in order of first appearance. As written, a name such as "constructor", "toString" or "__proto__" finds an inherited member, and the `events.add` call then throws, so the page fails. The model gives such a name a normal row. `Object.values` also lists integer-like names ("7", "42") first, in ascending numeric order, so rows with equal sort keys can appear in a different order than in the model.
- AdminPanelPage.AdminPanel.Approve: the model selects the submission, then credits the team with that submission's tile. As written, the credit (AdminPanel.jsx line 77) reads `selectedSubmission` from the render before the click, because the click's `setSelectedSubmission` is not yet visible. On a freshly loaded panel that value is null: the status is written, then the credit throws, so the team is never credited and the selection is never cleared. If the admin first opened another submission's screenshot, that other submission's tile is appended to `completed_tiles`. Scoring.ApprovalKeepsConsistent is about the intended transition.
- Common.Trim, Common.ToLower, ProfileSetupDialog.ValidationError: strings are sequences of code points. JavaScript's `length` counts UTF-16 code units, so a name like "a😀" has length 3 and the source accepts it, while the model refuses it as shorter than 3. Eleven emoji have length 22 and the source refuses them, while the model accepts them. The model's `trim` strips only the six ASCII white-space characters in `IsSpace`, not U+00A0, U+2028 or U+FEFF, and its `toLowerCase` lowers only A to Z, not other letters.
- TeamPageView.SavePinnedMessage: "Remove Pin" is modelled as saving the empty message; as written, the handler may still see the old text because the state update is not yet visible.
- The clock, `Math.random` and backend-assigned ids are parameters (`now`, `suffix`, `id`). ISO date strings are integer milliseconds.
- `localStorage` values are fields or constructor parameters. `alert` is not modelled. Every `confirm` the modelled handlers ask is a `confirmed` parameter, including the leaderboard's two reset confirmations, which gate `EventPage.OnReset` and `EventPage.OnResetTeam`.
- JavaScript `Number()` coercion of tile ids: tile ids are integers throughout, so coercion is the identity.
- Floating point: `Math.sqrt` is replaced by the exact least side whose square holds the tiles. The leaderboard bar width percentage is not modelled.
- Scoring.Credit: `team.total_points + undefined` is NaN in JavaScript. It is modelled as an absent score, which reads as zero.
- File uploads (screenshots, banners, icons): the upload service's answer is an input (`FinishUpload`).
- Rendering, animation, styling, navigation after success and the dialogs' open/close flags beyond those that gate behaviour.
- The components TeamSelector, AdminPlayerSelect, EventRules, OSRSButton and PlayerLink are not part of this model. They render and forward clicks: TeamSelector's lock guard is repeated in `HandleSelectTeam`, AdminPlayerSelect's choice arrives as `AdminAssignPlayer`'s parameters, and PlayerLink's badge lookup is display only.
- InviteDialog: the dialog reads `user.email` and would throw without a signed-in user; the model takes the user's e-mail as a string.
- Fields the backend adds on create (such as `created_date` and default flags) are part of the records passed in.

## Findings

| source | as written | input that shows it | evidently intended | confidence | as-written member | corrected member |
|---|---|---|---|---|---|---|
| src/pages/PlayerStats.jsx:103 | the thresholds run on the tally, whose `events` is still the Set of line 92; `Set >= 1` compares NaN, so "first_event" and "five_events" never hold and filtering by them shows no player | one approved completion {player_name "alice", event_id "e1", points_awarded 10}: the row's badges are ["first_tile"] | the thresholds see the number of distinct events, as on the profile page (UserProfile.jsx:79-91), giving ["first_tile", "first_event"] | high, not executed | PlayerStatsPage.OneCompletionRow | PlayerStatsPage.EarnedBadges |

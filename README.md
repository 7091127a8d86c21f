# KamuKoprusu complaint platform: a Dafny model of its rules

KamuKoprusu is an ASP.NET Core web application in which citizens file complaints
against public institutions. Moderators approve or reject complaints and warn
misbehaving users. Institution representatives move complaints through their
statuses. Administrators manage accounts. A gamification service awards badges,
reputation points and levels.

This project models the rule-bearing core of that application and proves properties of
it with Dafny:

- the moderator's warning-escalation ladder;
- the badge, reputation and level engine;
- the Turkish mobile-number validator;
- the complaint lifecycle: filing, cancelling, editing, approving, rejecting, status updates and deletion;
- the public REST API's visibility filter, truncation, paging and statistics;
- registration and login gating;
- the administrator's account actions;
- the audit service's client-address extraction.

The database is one `Store` object (module `Entities`). Users and institutions are maps
keyed by id. Complaints, updates, warnings, ban records, badges, user-badges, profiles
and audit logs are sequences.

Every controller action becomes a method on that store:

- its `modifies` clause names exactly the tables it writes;
- its `ensures` clause gives the new contents of each table;
- every action keeps the store's key invariant `Store.Valid`. The invariant holds users and institutions keyed by their own ids, unique complaint ids below the next id to be assigned, unique badge ids, and no (user, badge) pair awarded twice, which is the unique index of the user-badge table.

The decisions inside the actions are pure functions, and the lemmas are stated about
those functions. The decisions cover the ladder, the badge criteria, the points, the
level, the rebuilt score, the filters, the truncation, the rates and the login chain.

Where an action works step by step, the model does too:

- the badge award pass walks the catalogue in a loop (`GamificationService.ScanCatalogue`);
- the upload handling walks the files (`CitizenController.CollectMedia`);
- the administrator's role filter walks the users (`AdminController.FilterByRole`).

Each of these loops is proved equal to the function that specifies it.

Time is an integer count of seconds and a day is 86400 seconds. Text is `seq<char>`.
Identity's password check, the identity errors and the id of a new account are
parameters of the actions that use them.

Modules follow the source files:

| module | source file |
|---|---|
| `Options`, `Text`, `Queries` | shared helpers: option type, .NET string helpers, LINQ counting, filtering and paging |
| `Entities` | Models/*.cs, Enums/*.cs, Data/ApplicationDbContext.cs |
| `PhoneValidator` | Validators/TurkishPhoneNumberAttribute.cs |
| `GamificationService` | Services/GamificationService.cs, Data/DbInitializer.cs |
| `AuditService` | Services/AuditService.cs |
| `ModeratorController` | Controllers/ModeratorController.cs |
| `CitizenController` | Controllers/CitizenController.cs |
| `InstitutionController` | Controllers/InstitutionController.cs |
| `AdminController` | Controllers/AdminController.cs |
| `ComplaintsApiController` | Controllers/Api/ComplaintsApiController.cs |
| `UsersApiController` | Controllers/Api/UsersApiController.cs |
| `AccountController` | Controllers/AccountController.cs |

## Model

| member | source | states |
|---|---|---|
| Entities.ParseStatus | Enums/ComplaintStatus.cs:3-12 | name lookup of a status succeeds exactly for the seven status names and returns the status with that name |
| Entities.ParseType | Enums/ComplaintType.cs:5-33 | name lookup of a complaint type succeeds exactly for the nine type names and returns the type with that name |
| Entities.StatusName | Enums/ComplaintStatus.cs:3-12 | the name `ToString` gives each complaint status |
| Entities.TypeName | Enums/ComplaintType.cs:5-33 | the name `ToString` gives each complaint type |
| Entities.IndexOf | Controllers/InstitutionController.cs:93-97 | the lookup by id finds a complaint with that id, or reports that none has it |
| Entities.IndexOfOwned | Controllers/CitizenController.cs:338-344 | the lookup by id and owner finds the caller's own complaint with that id; with unique ids a miss means no complaint has that id and owner |
| Entities.AppendKeepsKeys | Data/ApplicationDbContext.cs:68-70 | a complaint stored under the next id keeps complaint ids unique and below the new next id |
| Text.LeadingBlanks | Services/AuditService.cs:51 | counts the white-space characters at the start of a string: all of them are blank and the next one is not |
| Text.TrailingBlanks | Services/AuditService.cs:51 | counts the white-space characters at the end of a string: all of them are blank and the one before is not |
| Text.Trim | Services/AuditService.cs:51 | `Trim` returns the contiguous middle of the input; everything cut off is white space, neither end of the result is white space, and the result is empty exactly when the input is blank |
| Text.FirstField | Services/AuditService.cs:51 | `Split(',')[0]`: the longest prefix without the separator; the separator follows it when anything does |
| Text.IsWhiteSpace | Validators/TurkishPhoneNumberAttribute.cs:19 | the white-space characters of `Char.IsWhiteSpace` and the regex class `\s` |
| Text.IsBlank | Validators/TurkishPhoneNumberAttribute.cs:10 | `string.IsNullOrWhiteSpace` on a present string: every character is white space |
| Text.Upper | Controllers/AdminController.cs:455-457 | `ToUpper` keeps the length and upper-cases each character, ASCII letters only as Left out states |
| Queries.Count | Controllers/Api/ComplaintsApiController.cs:129-133 | a count never exceeds the length and is zero exactly when nothing matches |
| Queries.Filter | Controllers/AdminController.cs:69-77 | `Where` keeps exactly the elements that satisfy the predicate, and no more of them than there were |
| Queries.CountIsFilterLength | Controllers/Api/ComplaintsApiController.cs:53 | `CountAsync` over a filtered query equals the length of the filtered list |
| Queries.Page | Controllers/Api/ComplaintsApiController.cs:56-57 | `Skip((page-1)*pageSize).Take(pageSize)` as SQL Server runs it: refused exactly when the page or the page size is below 1; otherwise the contiguous run starting after the skipped items, at most pageSize long and empty past the end |
| Queries.PageAccepted | Controllers/Api/ComplaintsApiController.cs:56-57 | SQL Server runs the OFFSET/FETCH paging only for a page and a page size of at least 1 |
| Queries.PagesAreConsecutive | Controllers/Api/ComplaintsApiController.cs:56-57 | two consecutive full-size pages are both accepted and are adjacent slices of the list, with no gap and no overlap |
| PhoneValidator.Strip | Validators/TurkishPhoneNumberAttribute.cs:19 | removing separators never lengthens the input, leaves no separator, and keeps every other character |
| PhoneValidator.IsSeparator | Validators/TurkishPhoneNumberAttribute.cs:19 | the class `[\s\-\(\)]`: white space, hyphen and the two parentheses |
| PhoneValidator.IsDigit | Validators/TurkishPhoneNumberAttribute.cs:22 | `\d`, as the ASCII digits 0 to 9 (Left out states the Unicode difference) |
| PhoneValidator.MatchesPattern | Validators/TurkishPhoneNumberAttribute.cs:22 | `^05\d{9}$`: eleven characters, "05" and then nine digits |
| PhoneValidator.IsValid | Validators/TurkishPhoneNumberAttribute.cs:10-25 | the attribute's verdict: a missing or blank value passes, anything else passes exactly when its stripped form matches the pattern |
| PhoneValidator.StripConcat | Validators/TurkishPhoneNumberAttribute.cs:19 | stripping distributes over concatenation |
| PhoneValidator.StripIdempotent | Validators/TurkishPhoneNumberAttribute.cs:19 | stripping twice is stripping once |
| PhoneValidator.StripSeparators | Validators/TurkishPhoneNumberAttribute.cs:19 | a run of separators strips to nothing |
| PhoneValidator.StripKeepsClean | Validators/TurkishPhoneNumberAttribute.cs:19 | a string without separators is left as it is |
| PhoneValidator.StripIgnoresInsertion | Validators/TurkishPhoneNumberAttribute.cs:19 | inserting separators anywhere does not change the stripped form |
| PhoneValidator.InsertionKeepsNonBlank | Validators/TurkishPhoneNumberAttribute.cs:10-14 | inserting separators into a non-blank input keeps it non-blank |
| PhoneValidator.SeparatorsDoNotMatter | Validators/TurkishPhoneNumberAttribute.cs:10-22 | inserting separators anywhere into a non-blank number never changes the verdict |
| PhoneValidator.ForeignCharacterRejects | Validators/TurkishPhoneNumberAttribute.cs:19-25 | a character that is neither a digit nor a separator, such as '+' or '.', makes the input invalid |
| PhoneValidator.MissingNumberIsValid | Validators/TurkishPhoneNumberAttribute.cs:10-14 | a missing, empty or all-white-space number is valid |
| PhoneValidator.ValidNumberHasElevenDigits | Validators/TurkishPhoneNumberAttribute.cs:19-22 | a valid non-blank number strips to exactly eleven digits |
| PhoneValidator.DigitsStripToThemselves | Validators/TurkishPhoneNumberAttribute.cs:19 | a string of digits is its own stripped form |
| PhoneValidator.ExampleMobile | Validators/TurkishPhoneNumberAttribute.cs:22 | "05321234567" is valid |
| PhoneValidator.ExampleSpaced | Validators/TurkishPhoneNumberAttribute.cs:19-22 | "0532 1234567" is valid |
| PhoneValidator.ExampleLandline | Validators/TurkishPhoneNumberAttribute.cs:22 | "04321234567" (not a mobile prefix) is invalid |
| PhoneValidator.ExampleInternational | Validators/TurkishPhoneNumberAttribute.cs:22-25 | "+905321234567" is invalid |
| GamificationService.ActivityOf | Services/GamificationService.cs:74-97 | the four activity counts are the numbers of the user's complaints, of those Resolved, of those with media, and of those Resolved with a resolution time at most three day boundaries after filing; resolved, media and quick never exceed submitted, and quick never exceeds resolved |
| GamificationService.DateDiffDay | Services/GamificationService.cs:95 | `DateDiffDay`: the number of calendar-day boundaries between two times |
| GamificationService.SubmittedBy | Services/GamificationService.cs:75-76 | the ComplaintSubmitted criterion and the score's first count: the user's complaints |
| GamificationService.ResolvedFor | Services/GamificationService.cs:79-81 | the ComplaintResolved criterion and the score's resolved count: the user's Resolved complaints |
| GamificationService.WithMediaBy | Services/GamificationService.cs:85-87 | the MediaUploaded criterion and the score's media count: the user's complaints with at least one media file |
| GamificationService.QuickFor | Services/GamificationService.cs:91-95 | a quick resolution: the user's Resolved complaint with a resolution time at most three day boundaries after filing |
| GamificationService.Earned | Services/GamificationService.cs:69-101 | a badge's criteria: the count of its kind reaches the required count, and an unknown kind is never met |
| GamificationService.EarnedMonotone | Services/GamificationService.cs:70-101 | the criteria are thresholds: more activity never loses a badge's criteria |
| GamificationService.BadgePoints | Services/GamificationService.cs:107-117 | badge points are non-negative for a non-negative requirement, and an unknown criteria type is worth 10 |
| GamificationService.LevelFor | Services/GamificationService.cs:134-141 | the level is the highest one whose threshold (50, 100, 200, 500) the score reaches |
| GamificationService.LevelMonotone | Services/GamificationService.cs:134-141 | a higher score never gives a lower level |
| GamificationService.HeldIds | Services/GamificationService.cs:36 | the ids of the badges the user holds are exactly the badge ids of the user's rows |
| GamificationService.NewBadges | Services/GamificationService.cs:38-58 | an award pass grants no more badges than the catalogue has |
| GamificationService.NewBadgesSpec | Services/GamificationService.cs:38-58 | an award pass grants exactly the catalogue badges that are earned and not yet held |
| GamificationService.FilterKeepsIdsUnique | Data/ApplicationDbContext.cs:148 | the badges granted from a catalogue with unique ids have unique ids |
| GamificationService.Grants | Services/GamificationService.cs:48-54 | one user-badge row per granted badge, for the user, stamped now |
| GamificationService.BadgeById | Services/GamificationService.cs:171-172 | the badge a user-badge row refers to is the catalogue badge with that id, if there is one |
| GamificationService.BadgeByIdFinds | Services/GamificationService.cs:171-172 | with unique catalogue ids, a catalogue badge is found by its own id |
| GamificationService.EarnedPointsOfGrants | Services/GamificationService.cs:57-172 | the rebuilt score counts the newly granted badges' points exactly as the award pass adds them |
| GamificationService.ReputationScore | Services/GamificationService.cs:149-180 | the rebuilt score is 5 per complaint, 20 per resolved one, 3 per one with media, plus badge points, minus 20 per warning, floored at zero; it is never negative |
| GamificationService.RawScore | Services/GamificationService.cs:152-177 | the score before the floor: 5 per complaint, 20 per resolved complaint, 3 per complaint with media, the badge points, less 20 per warning |
| GamificationService.WarningCostsAtMostTwenty | Services/GamificationService.cs:176-179 | one more warning lowers the rebuilt score by at most 20 and never raises it |
| GamificationService.OthersWarningsDoNotCount | Services/GamificationService.cs:176 | a warning issued to another user leaves the score unchanged |
| GamificationService.RefreshLevel | Services/GamificationService.cs:127-141 | a stored score of zero is replaced by the rebuilt score, a non-zero one is kept, the level follows the resulting score, and nothing else changes |
| GamificationService.RefreshLevelIdempotent | Services/GamificationService.cs:127-141 | refreshing twice is refreshing once |
| GamificationService.CheckAndAward | Services/GamificationService.cs:27-65 | the award pass plus the level refresh: an unknown user changes nothing; other users are untouched; old rows are kept and new rows belong to the user and are stamped now; no (user, badge) pair is ever duplicated |
| GamificationService.CheckAndAwardKnown | Services/GamificationService.cs:33-64 | for a known user, the new rows are the grants and the stored score is credited with their points before the level refresh |
| GamificationService.AwardKeepsUnique | Services/GamificationService.cs:36-58 | skipping held badges means a (user, badge) pair is never awarded twice |
| GamificationService.AwardCoversEarned | Services/GamificationService.cs:38-58 | after a pass, every catalogue badge the user has earned is held |
| GamificationService.SecondPassGrantsNothing | Services/GamificationService.cs:38-58 | a second pass over unchanged tables grants nothing and adds no points |
| GamificationService.CheckAndAwardIdempotent | Services/GamificationService.cs:33-64 | repeating the whole badge check with unchanged complaints and warnings changes nothing, at any later time |
| GamificationService.AwardPointsMatchRebuild | Services/GamificationService.cs:57-173 | the stored score rises by exactly the points of the badges newly awarded in that call, unless it stays zero and the refresh rebuilds it |
| GamificationService.SeedBadgeIdsUnique | Data/DbInitializer.cs:75-149 | the seeded catalogue has unique ids |
| GamificationService.FirstComplaintEarnsFirstBadge | Data/DbInitializer.cs:75-149 | with the seeded catalogue, a user's first complaint earns only the first badge, worth 5 points |
| GamificationService.SeedTailNeedsMore | Data/DbInitializer.cs:75-149 | with one complaint and nothing else, none of the seed badges after the first is earned |
| GamificationService.UpdateUserLevel | Services/GamificationService.cs:122-144 | for a known user, the stored score and level become the refresh against the current tables; an unknown user changes nothing |
| GamificationService.ScanCatalogue | Services/GamificationService.cs:38-59 | the loop over the catalogue adds exactly the grants of the earned, unheld badges and their total points |
| GamificationService.AwardBadges | Services/GamificationService.cs:29-61 | saves the new rows and the credited score for a known user; an unknown user changes nothing |
| GamificationService.CheckAndAwardBadges | Services/GamificationService.cs:27-65 | the stored users and user-badges become exactly `CheckAndAward` of the old ones |
| AuditService.FirstHop | Services/AuditService.cs:48-52 | the address taken from X-Forwarded-For has no white space at either end |
| AuditService.FirstHopLocation | Services/AuditService.cs:48-52 | that address is the trimmed first comma-separated entry, so it never contains a comma |
| AuditService.GetClientIpAddress | Services/AuditService.cs:42-55 | no context gives "Unknown"; a non-empty X-Forwarded-For gives its first entry, trimmed; otherwise the remote address, or "Unknown" when there is none |
| AuditService.OnlyFirstHopCounts | Services/AuditService.cs:48-52 | what follows the first comma never changes the address |
| AuditService.FirstFieldOfJoin | Services/AuditService.cs:51 | the first field of a comma-free text joined by a comma to anything is that text |
| AuditService.SingleForwardedAddress | Services/AuditService.cs:48-52 | a single address without commas or surrounding blanks is returned as it is |
| AuditService.Log | Services/AuditService.cs:23-40 | appends exactly one audit entry with the given user, action, entity, details, client address and time |
| ModeratorController.Approve | Controllers/ModeratorController.cs:118-119 | approval sets status New and the approved flag and changes nothing else |
| ModeratorController.Reject | Controllers/ModeratorController.cs:148-150 | rejection sets status Rejected, clears the approved flag, records the reason and changes nothing else |
| ModeratorController.ApproveIdempotent | Controllers/ModeratorController.cs:118-119 | approving twice is approving once |
| ModeratorController.ApprovalKeepsRejectionReason | Controllers/ModeratorController.cs:118-150 | approving a rejected complaint does not clear its rejection reason |
| ModeratorController.RejectOverridesApprove | Controllers/ModeratorController.cs:118-150 | rejecting after approving is the same as rejecting; neither checks the prior status |
| ModeratorController.ApproveComplaint | Controllers/ModeratorController.cs:110-136 | an unknown id changes nothing; otherwise the complaint is approved and one update with status New is appended |
| ModeratorController.RejectComplaint | Controllers/ModeratorController.cs:140-167 | an unknown id changes nothing; otherwise the complaint is rejected and one update with status Rejected and the reason is appended |
| ModeratorController.LadderBan | Controllers/ModeratorController.cs:195-251 | no ban for the first warning, 7 days for the second, 30 days for the third, permanent from the fourth on; every ban copies the user's current e-mail and phone |
| ModeratorController.Severity | Controllers/ModeratorController.cs:195-251 | the order of the ladder's outcomes: no ban, then the ban's length in days, with a permanent ban above every temporary one |
| ModeratorController.LadderEscalates | Controllers/ModeratorController.cs:195-251 | a later warning never brings a milder ban |
| ModeratorController.Warn | Controllers/ModeratorController.cs:171-262 | an unknown user changes nothing; otherwise exactly one warning is appended and the count is the user's warnings including it; a ban record is added and the user flagged banned exactly when the count is at least 2; no other user and no other field changes |
| ModeratorController.WarnAddsLadderBan | Controllers/ModeratorController.cs:192-251 | the ban record a warning adds is the ladder's ban for the new count |
| ModeratorController.FourWarningsEscalate | Controllers/ModeratorController.cs:192-251 | four warnings in a row give: a warning only, then 7 days, then 30 days, then a permanent ban |
| ModeratorController.WarnUser | Controllers/ModeratorController.cs:171-262 | the users, warnings and bans tables become exactly `Warn` of the old ones |
| CitizenController.GetMediaType | Controllers/CitizenController.cs:207-217 | "video/" gives Video, "audio/" gives Audio, and everything else, "image/" included, gives Photo |
| CitizenController.MediaRow | Controllers/CitizenController.cs:152-161 | the row of one upload carries its media type from the content type, its file name and its length, stamped now |
| CitizenController.MediaFor | Controllers/CitizenController.cs:140-165 | media rows are no more than the uploads, each with a positive size and the upload time |
| CitizenController.MediaForCountsNonEmpty | Controllers/CitizenController.cs:140-165 | the media rows are, in upload order, exactly the rows of the non-empty uploads: zero-length files are skipped and each other file keeps its own media type, name and length |
| CitizenController.CollectMedia | Controllers/CitizenController.cs:140-165 | the upload loop produces exactly the media rows of the non-empty files, in order |
| CitizenController.NewComplaint | Controllers/CitizenController.cs:115-129 | a filed complaint awaits moderation, is not approved, and belongs to the filer and the chosen institution |
| CitizenController.CreatedDetails | Controllers/CitizenController.cs:174-175 | the audit details `Title: <title>, Institution: <institution id>` of a new complaint |
| CitizenController.Create | Controllers/CitizenController.cs:109-184 | an invalid form changes nothing; otherwise one complaint with its media is appended under the next id, the filer's badge check runs, and one audit entry is written |
| CitizenController.FilingAddsSubmission | Controllers/CitizenController.cs:131-171 | filing a complaint adds one to the filer's submitted count |
| CitizenController.Cancel | Controllers/CitizenController.cs:353 | cancelling sets Closed and changes nothing else |
| CitizenController.CanCancel | Controllers/CitizenController.cs:347 | a complaint can be cancelled only while awaiting moderation or New |
| CitizenController.CanEdit | Controllers/CitizenController.cs:403 | a complaint can be edited only while awaiting moderation |
| CitizenController.CancelIsFinal | Controllers/CitizenController.cs:347-444 | a cancelled complaint can be neither cancelled again nor edited |
| CitizenController.EditableIsCancellable | Controllers/CitizenController.cs:347-444 | whatever may be edited may be cancelled |
| CitizenController.CancelComplaint | Controllers/CitizenController.cs:335-369 | another user's or a missing complaint is not found; a complaint that is not PendingModeration or New is refused; neither changes anything; otherwise the complaint is closed and one Closed update by the owner is appended |
| CitizenController.ApplyEdit | Controllers/CitizenController.cs:448-452 | an edit takes title, description, type, category and location from the form and leaves every other field as it was |
| CitizenController.EditRoundTrip | Controllers/CitizenController.cs:409-452 | saving the form the edit page showed changes nothing, re-applying an edit changes nothing, and an edit never changes editability |
| CitizenController.EditPage | Controllers/CitizenController.cs:389-422 | the edit form is shown exactly for the caller's own complaint awaiting moderation, filled from that complaint |
| CitizenController.Edit | Controllers/CitizenController.cs:426-463 | another user's or a missing complaint, one not awaiting moderation, or an invalid form changes nothing; otherwise only the five editable fields change |
| InstitutionController.ResolutionRate | Controllers/InstitutionController.cs:156-158 | integer percentage: the rate is the floor of resolved×100/total, 0 when there are no complaints, and between 0 and 100 when resolved ≤ total |
| InstitutionController.RateExtremes | Controllers/InstitutionController.cs:156-158 | all resolved gives 100, none resolved gives 0 |
| InstitutionController.RateMonotone | Controllers/InstitutionController.cs:156-158 | more resolved complaints never lower the rate |
| InstitutionController.InstitutionStats | Controllers/InstitutionController.cs:146-153 | total, resolved, pending and in-progress are the numbers of the institution's complaints, of those Resolved, New and InProgress; the three never exceed the total together; representatives are the users linked to the institution |
| InstitutionController.ProfileRateInRange | Controllers/InstitutionController.cs:146-158 | the profile's rate lies between 0 and 100 |
| InstitutionController.ProfileOf | Controllers/InstitutionController.cs:130-174 | an account linked to no institution gets the not-linked answer, a dangling link gets not found, and otherwise the page shows the institution with its statistics and a rate between 0 and 100 |
| InstitutionController.StatusFilter | Controllers/InstitutionController.cs:51 | a status filter applies exactly when its name parses as a status |
| InstitutionController.Listed | Controllers/InstitutionController.cs:47-52 | the institution's complaints past moderation, of the parsed status when one is given |
| InstitutionController.InstitutionComplaints | Controllers/InstitutionController.cs:35-67 | an unlinked representative gets no list; otherwise every listed complaint is the institution's, past moderation and of the parsed status when one is given, and every such complaint is listed |
| InstitutionController.PendingFilterShowsNothing | Controllers/InstitutionController.cs:47-54 | filtering by PendingModeration shows no complaint |
| InstitutionController.SetStatus | Controllers/InstitutionController.cs:110-115 | sets any new status, with no transition guard; the resolution time becomes now only when the new status is Resolved; nothing else changes |
| InstitutionController.ReopenKeepsResolvedAt | Controllers/InstitutionController.cs:112-115 | moving a resolved complaint to another status keeps its resolution time |
| InstitutionController.ResolvingCountsForOwner | Controllers/InstitutionController.cs:110-124 | resolving an unresolved complaint adds one resolution to its owner's activity only |
| InstitutionController.UpdateStatus | Controllers/InstitutionController.cs:91-128 | an unknown complaint changes nothing; otherwise the status is set, one update with the new status is appended, and the owner's badge check runs exactly when the new status is Resolved and the complaint has an owner |
| InstitutionController.ApplyProfile | Controllers/InstitutionController.cs:211-216 | only address, phone, e-mail, website and about are taken from the form; id, name and institution code are kept |
| InstitutionController.ProfileEditRoundTrip | Controllers/InstitutionController.cs:211-216 | saving the shown profile changes nothing and re-applying an edit changes nothing |
| InstitutionController.EditProfile | Controllers/InstitutionController.cs:196-222 | an unlinked user or a missing institution changes nothing; otherwise only the linked institution's profile is edited |
| AdminController.DashboardOf | Controllers/AdminController.cs:28-56 | the user, complaint and institution totals are the table sizes; pending approvals, banned users and moderators are the accounts unapproved, banned and holding the Moderator role; resolved and pending moderation are the complaints of those statuses; recent bans are the records made within a day of now; the rate is the integer resolution rate of resolved over total, within 0 to 100 |
| AdminController.UsersWhere | Controllers/AdminController.cs:31-32 | the count is the number of accounts satisfying the predicate, never more than the accounts, and zero exactly when no account satisfies it |
| AdminController.RecentBan | Controllers/AdminController.cs:38 | a ban record made at most one day before now |
| AdminController.Pending | Controllers/AdminController.cs:72 | the "pending" filter: the account is not approved |
| AdminController.Banned | Controllers/AdminController.cs:74 | the "banned" filter: the account is banned |
| AdminController.Active | Controllers/AdminController.cs:76 | the "active" filter: the account is approved and not banned |
| AdminController.HasRole | Controllers/AdminController.cs:86-87 | the role filter: the account holds the role |
| AdminController.UsersWithStatus | Controllers/AdminController.cs:69-77 | "pending" keeps unapproved users, "banned" keeps banned users, "active" keeps approved unbanned users, and any other value keeps everyone |
| AdminController.StatusFiltersPartition | Controllers/AdminController.cs:69-77 | the "pending" list, the "active" list and the approved banned users together make up every user, so "pending" and "active" never share one |
| AdminController.FilterByRole | Controllers/AdminController.cs:81-94 | the role loop keeps exactly the users holding the role, in order, and keeps everyone without a role filter |
| AdminController.ApproveUser | Controllers/AdminController.cs:348-367 | an unknown user changes nothing; otherwise only the approved flag is set |
| AdminController.AdminBan | Controllers/AdminController.cs:382-390 | the administrator's ban is permanent with no expiry, copies e-mail and phone, and a missing reason becomes "Kuralları ihlal" |
| AdminController.BanUser | Controllers/AdminController.cs:371-403 | an unknown user changes nothing; otherwise the user is flagged banned and one permanent ban record is appended |
| AdminController.UnbanUser | Controllers/AdminController.cs:407-426 | an unknown user changes nothing; otherwise only the banned flag is cleared and the ban history is untouched |
| AdminController.BanThenUnban | Controllers/AdminController.cs:371-426 | banning and then unbanning leaves the account unbanned and otherwise as it was, while the ban record of the first request stays in the history |
| AdminController.Anonymise | Controllers/AdminController.cs:453-459 | a deleted account is banned, gets the placeholder e-mail and user name with upper-case normalised copies, loses its phone, gets the deleted-user name, and keeps everything else |
| AdminController.DeletedEmail | Controllers/AdminController.cs:454 | the placeholder e-mail `deleted_<id>@deleted.local` of a deleted account |
| AdminController.DeletedUserName | Controllers/AdminController.cs:456 | the placeholder user name `deleted_<id>` of a deleted account |
| AdminController.DeletionBan | Controllers/AdminController.cs:438-451 | a ban record is written exactly when the account has an e-mail, and it snapshots the e-mail and phone from before the deletion |
| AdminController.DeletedEmailsDistinct | Controllers/AdminController.cs:454 | different accounts get different placeholder e-mails |
| AdminController.DeletingTwice | Controllers/AdminController.cs:438-459 | deleting an account twice anonymises it no further, and the second deletion still writes a ban record |
| AdminController.DeleteUser | Controllers/AdminController.cs:430-466 | an unknown user changes nothing; otherwise the account is anonymised and the deletion ban, if any, is appended |
| AdminController.Detach | Data/ApplicationDbContext.cs:166-170 | a warning that referred to the deleted complaint loses that reference, and nothing else changes |
| AdminController.DetachAll | Data/ApplicationDbContext.cs:166-170 | every warning is kept, detached from the deleted complaint |
| AdminController.RemoveAtIsFilter | Controllers/AdminController.cs:178 | removing the complaint found by id is filtering out that id |
| AdminController.OtherKeysKept | Controllers/AdminController.cs:178 | complaints with other ids are all kept |
| AdminController.RemoveAtKeepsKeys | Controllers/AdminController.cs:178 | removing a complaint keeps complaint ids unique |
| AdminController.DeletionRemovesExactly | Controllers/AdminController.cs:178 | a complaint survives deletion exactly when its id differs |
| AdminController.DeletionLog | Controllers/AdminController.cs:166-175 | the deletion's audit entry carries the administrator, the complaint id and the time, and its address is the remote address or "Unknown" |
| AdminController.DeleteComplaint | Controllers/AdminController.cs:157-183 | an unknown id changes nothing; otherwise exactly that complaint and its updates are removed, warnings are detached from it, and one audit entry is appended |
| ComplaintsApiController.Truncate | Controllers/Api/ComplaintsApiController.cs:62 | a description of at most 200 characters is unchanged; a longer one becomes its first 200 characters followed by "..."; the result is at most 203 long |
| ComplaintsApiController.TruncateIdempotent | Controllers/Api/ComplaintsApiController.cs:62 | truncating twice is truncating once |
| ComplaintsApiController.TruncateLongAgree | Controllers/Api/ComplaintsApiController.cs:62 | two long descriptions show the same exactly when their first 200 characters agree |
| ComplaintsApiController.ListEntry | Controllers/Api/ComplaintsApiController.cs:58-70 | a list entry carries the complaint's id, its status name and its truncated description |
| ComplaintsApiController.IsPublic | Controllers/Api/ComplaintsApiController.cs:40 | only Resolved and InProgress complaints are visible through the API |
| ComplaintsApiController.ListFilter | Controllers/Api/ComplaintsApiController.cs:40-51 | public, then the parsed status when given and parsable, then the exact category when given |
| ComplaintsApiController.FiltersOnlyNarrow | Controllers/Api/ComplaintsApiController.cs:40-51 | everything listed is Resolved or InProgress, and the status filter only narrows |
| ComplaintsApiController.PendingNeverListed | Controllers/Api/ComplaintsApiController.cs:40-46 | filtering by PendingModeration lists nothing |
| ComplaintsApiController.GetComplaints | Controllers/Api/ComplaintsApiController.cs:32-84 | a server error exactly when the database refuses the paging; otherwise the total counts the matching complaints and the data is the requested page of them, at most pageSize entries, each shown as its list entry |
| ComplaintsApiController.ListedMatch | Controllers/Api/ComplaintsApiController.cs:40-62 | a page never holds more entries than the total, and every entry shows a public complaint that passes the filters |
| ComplaintsApiController.GetComplaint | Controllers/Api/ComplaintsApiController.cs:90-119 | a complaint is returned exactly when one with that id is public, with its full description and the number of its updates |
| ComplaintsApiController.GetStats | Controllers/Api/ComplaintsApiController.cs:125-137 | the total is every complaint; resolved, inProgress and rejected are the complaints of those statuses; "pending" counts New plus PendingModeration |
| ComplaintsApiController.AwaitingWork | Controllers/Api/ComplaintsApiController.cs:132 | the statistics' "pending": New or PendingModeration |
| ComplaintsApiController.StatsPartition | Controllers/Api/ComplaintsApiController.cs:129-133 | resolved, in progress, pending and rejected, together with Viewed and Closed, account for every complaint exactly once |
| ComplaintsApiController.GetCategories | Controllers/Api/ComplaintsApiController.cs:143-153 | the categories are exactly those of complaints that are neither Rejected nor Closed, each with its positive count |
| ComplaintsApiController.Counted | Controllers/Api/ComplaintsApiController.cs:146 | the category counts leave out Rejected and Closed complaints |
| ComplaintsApiController.CategoryCount | Controllers/Api/ComplaintsApiController.cs:146-148 | a category's count is the number of counted complaints in it, and it is at least 1 when one exists |
| ComplaintsApiController.CreateCheck | Controllers/Api/ComplaintsApiController.cs:162-182 | checks in order: an invalid model is reported first, then an unknown caller, then an unknown institution, then an unparsable type; each error exactly when the earlier checks pass and its own fails, and the request passes exactly when all four hold |
| ComplaintsApiController.InstitutionCheckedBeforeType | Controllers/Api/ComplaintsApiController.cs:173-182 | an unknown institution is reported whatever the type says |
| ComplaintsApiController.ApiComplaint | Controllers/Api/ComplaintsApiController.cs:184-195 | a complaint created through the API awaits moderation, is not approved or anonymous, has no media, and belongs to the caller |
| ComplaintsApiController.CreateComplaint | Controllers/Api/ComplaintsApiController.cs:160-213 | a refused request changes nothing; otherwise exactly one complaint awaiting moderation is appended and returned with its institution's name |
| UsersApiController.ToDto | Controllers/Api/UsersApiController.cs:51-61 | a listed user carries the account's id and flags, with a missing name or e-mail shown empty |
| UsersApiController.UsersListed | Controllers/Api/UsersApiController.cs:39-44 | without a role every user is listed; with one, exactly those holding it |
| UsersApiController.GetUsers | Controllers/Api/UsersApiController.cs:32-69 | a server error exactly when the database refuses the paging; otherwise the total counts the listed users, and the data is the requested page of them, at most pageSize long |
| UsersApiController.PageHoldsRole | Controllers/Api/UsersApiController.cs:39-50 | every user a role-filtered page shows holds that role |
| UsersApiController.PageOfAll | Controllers/Api/UsersApiController.cs:49-50 | for a positive page and page size, the page skips (page−1)·pageSize users and shows the next ones, as many as fit |
| UsersApiController.Toggle | Controllers/Api/UsersApiController.cs:136 | the toggle flips the banned flag and nothing else |
| UsersApiController.ToggleTwice | Controllers/Api/UsersApiController.cs:136 | toggling twice restores the account |
| UsersApiController.ToggleUserBan | Controllers/Api/UsersApiController.cs:128-140 | an unknown user changes nothing; otherwise only the banned flag is flipped, no ban record is written, and the reply carries the stored flag |
| AccountController.RegisterCheck | Controllers/AccountController.cs:42-79 | registration passes exactly when the form is valid and, for a representative, an institution id and code are given and match one institution; an invalid form, a missing institution, a missing code and a mismatch are each reported as such; only a representative is linked to an institution |
| AccountController.NewAccount | Controllers/AccountController.cs:81-111 | a new account uses the e-mail as user name, is approved exactly when not a representative, and starts unbanned at Bronze with score 0 and its one role |
| AccountController.VisibleErrors | Controllers/AccountController.cs:127-134 | exactly the identity errors that are not blank are shown |
| AccountController.BlankErrorsHidden | Controllers/AccountController.cs:127-134 | when every identity error is blank, none is shown |
| AccountController.Register | Controllers/AccountController.cs:40-138 | a refused form is sent back with the check that refused it and a failed creation with the visible identity errors, both adding no account; otherwise the account and its profile are added and the caller is sent to approval, signed in, or sent to the login page by role |
| AccountController.RepresentativesAwaitApproval | Controllers/AccountController.cs:87-111 | a registered account is unapproved exactly when it is a representative's, and then it is linked to the institution whose code was given |
| AccountController.AnyRoleRegisters | Controllers/AccountController.cs:47-89 | the role is not restricted: a valid form naming the Admin role passes every check and yields an approved administrator account |
| AccountController.RedirectArea | Controllers/AccountController.cs:184-200 | after sign-in the landing area follows the priority Admin, then Moderator, then representative, then citizen |
| AccountController.RedirectMonotone | Controllers/AccountController.cs:184-200 | gaining roles never lowers the landing area's priority |
| AccountController.FindByEmail | Controllers/AccountController.cs:155 | no account exactly when none has the e-mail; one account exactly when exactly one row matches, and then every matching row is that account; an error exactly when two or more rows match, as `SingleOrDefault` makes it |
| AccountController.Login | Controllers/AccountController.cs:149-217 | checks in order: form, unknown e-mail, unapproved account, banned account, then the password; a wrong password looks like an unknown e-mail |
| AccountController.GatesPrecedePassword | Controllers/AccountController.cs:155-177 | for an unknown, unapproved or banned account the answer does not depend on the password and is never a landing |
| AccountController.LandingNeedsEverything | Controllers/AccountController.cs:153-200 | a landing requires a valid form, a correct password and one approved, unbanned account, and it lands in that account's area |
| AccountController.UnknownEmailLooksLikeWrongPassword | Controllers/AccountController.cs:157-212 | an unknown e-mail and a wrong password give the same answer |

## Left out

- Persistence: Entity Framework and async saving are not modelled. Each action is one atomic step on in-memory tables. Where SQL Server's reading of a query differs from the model, the member's own line below says so.
- Change tracking: entities are values that an action writes back into the store, so object aliasing and change tracking are not modelled.
- Concurrency: calls are sequential, so the count-then-write race of the warning ladder cannot occur in the model.
- Ordering: every `OrderBy`/`OrderByDescending` is left out. Lists keep table order, so paging is stated over table order.
- Text search: the `search` filters (`Contains`, translated to SQL `LIKE` under a database collation) are left out of the user list and the institution's complaint list.
- Floating point: `totalPages` (`Math.Ceiling`), the average resolution days with `Math.Round`, and latitude and longitude are left out.
- Dates: time is whole seconds. A calendar day is `t / 86400`, and SQL Server's `DateDiffDay` is a difference of day numbers.
- Digits: only ASCII digits count. .NET's `\d` also accepts other Unicode decimal digits.
- Upper-casing: `ToUpper` is modelled on ASCII letters only.
- `Enum.TryParse`: parsing is exact name lookup. Numeric strings and comma-separated flag names, which .NET also accepts, are not modelled.
- Integer width: `resolved * 100` and `(page - 1) * pageSize` are unbounded here. Their 32-bit overflow, above about 21 million resolved complaints or for pages past the 32-bit range, is not modelled.
- Foreign keys: the citizen's `Create` does not check that the chosen institution exists. The database's foreign-key rejection of an unknown one is not modelled.
- Uploads: writing upload files, GUID file names and paths are left out. A media row keeps the file's name, size and type.
- Identity: password hashing and checking, lockout counting, role stores and `FindByEmailAsync`'s normalisation are left out.
  - `Login` takes the password outcome as a parameter.
  - `Register` takes the identity errors and the new account's id as parameters. It requires that id to be fresh, as Identity guarantees.
  - `AddToRoleAsync` is taken to succeed.
- Read-only pages: the Reports page, Home, the institutions API, the users API's single-user and statistics endpoints, the detail pages and the "recent complaints" lists are not modelled.
- Institution fields: only the fields the rules touch are modelled. Type, logo address and creation time are not.
- `GetBadgePoints`: whether `SumAsync(ub => GetBadgePoints(ub.Badge))` translates to SQL is not modelled; the intended sum is.
- Seed catalogue: the catalogue seeded by the database initialiser is used as data with ids 1 to 8 in insertion order. The database assigns those ids.
- Approve and reject: moderator approval and rejection run no badge check, as in the application, so none is modelled.
- Audit address of deletion: complaint deletion records the connection's remote address, not the forwarded address, as in the application.
- GamificationService.BadgePoints: its contract states only the bounds and the value for unknown kinds. The per-kind multipliers (5, 10 and 3 per required count, and 25) appear only in its definition, which the award and rebuild lemmas use.
- ComplaintsApiController.Truncate: lengths count Dafny characters, trailing blanks included. The list query runs the cut as SQL `LEN`/`SUBSTRING`, and `LEN` ignores trailing blanks and counts UTF-16 code units, so a description padded with blanks past 200 characters may be shown whole by the application.
- ComplaintsApiController.ListFilter: the category comparison is exact. SQL Server's default collation compares case-insensitively and ignores trailing blanks, so the application also matches categories that differ only in those.
- ComplaintsApiController.GetCategories: categories are grouped by exact text. Under the default collation SQL Server groups categories that differ only in case or trailing blanks together.
- AccountController.RegisterCheck: the institution code is compared exactly. The query compares it under the database collation, which by default ignores case and trailing blanks.
- CitizenController.GetMediaType: the content-type prefixes are compared ordinally. .NET's `StartsWith(string)` compares under the current culture, which also skips characters the culture ignores, such as zero-width ones.
- UsersApiController.GetUsers: the role filter is stated as exact membership in the role set stored on each user, not as the role store's membership query. `GetUsersInRoleAsync` normalises the role name before the lookup, so in the application `?role=moderator` lists the Moderators, while the model lists nobody for it.

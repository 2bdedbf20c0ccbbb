# MakerPort record bookkeeping, in Dafny

MakerPort is a browser application for makers. A maker writes a
step-by-step project guide, publishes it to a public portfolio, and then
collects views, reactions, comments, awards and points from other makers.
All of its state lives in browser local storage under three keys:

- `maker-projects`: the project collection;
- `maker-users`: the user collection;
- `maker-active-user`: the signed-in user.

This project models the logic that reads and rewrites those records and
proves what it promises:

- **Social engine** (`gamification.ts`):
  - the badge and award catalogs and the points table;
  - the seeded user list and the leaderboard ordering;
  - the user upsert;
  - point bookkeeping;
  - comments and awards.
- **Project editor** (`ProjectEditor.tsx`):
  - load-time normalisation of a stored project;
  - the list edits on the draft;
  - the commit rule shared by autosave and publish;
  - the debounced autosave, as a one-pending-save state machine.
- **Public portfolio** (`PublicPortfolio.tsx`):
  - the completed-only gallery;
  - view and reaction increments;
  - the award row and award inventory;
  - blank-entry filters;
  - newest-first comment order;
  - the component's handlers.
- **Slideshow** (`PresentationMode.tsx`): a bounded slide counter and its slide classification.
- **Leaderboard view** (`Leaderboard.tsx`): badge lookup, truncation, overflow count and rank labels.

Layout, one module per file:

- `Seqs` (`seqs.dfy`): the JavaScript array methods the code relies on (`filter`, `findIndex`, id-keyed `map`), with their properties.
- `Text` (`text.dfy`): ECMAScript `trim` and "blank".
- `Records` (`records.dfy`): the stored records.
- `Storage` (`storage.dfy`): class `Browser`, the three storage keys as fields. An absent key is `None`.
- `Gamification`, `ProjectEditor`, `PublicPortfolio`, `PresentationMode`, `Leaderboard`: one module per source file.

Modelling choices:

- Operations that rewrite storage are methods that modify a `Browser`; operations that change a component's state are methods of a class for that component.
- Each such method is specified by pure functions; the properties are proved about those functions.
- `Date.now()`, `Math.random()` and the formatted dates become parameters (`freshId`, `commentId`, `now`, `timestamp`).
- A timer firing is an explicit event.

Behaviour of the code a reader may not expect:

- **New projects are duplicated.** The editor's `projectId` prop stays null for a new project, so every autosave and the publish mint a fresh id and append another record (`NewProjectSavesDuplicate`). A record's id is stable only once the editor is opened with that id.
- **Publishing can add nothing.** With an id that no stored project carries, the collection is written back unchanged (or as `[]` when the key was absent), so nothing is added and the published project is not in the gallery (`PublishedIsListed`).
- **Editor saves drop social data.** A save writes only the draft's own fields, so comments, awards, reactions, views and the author of a stored project are dropped (`SaveDropsSocial`).
- **The badge reaction has its own key.** A `'badge'` reaction increments a separate `badge` key, not the `badges` counter.
- **Points can go down.** `setCurrentUser` merges the incoming user over the stored one, so the stored points are replaced by the incoming user's points.
- **A missing active user breaks the reaction handler.** With no active user, the reaction is written and then the handler stops: no points are granted and nothing is reloaded. The user interface cannot reach this path: the project page that holds the Appreciate button reads the active user's avatar while rendering its comment form (`PublicPortfolio.tsx` line 200), so that page fails before the button can be pressed. The model keeps the handler's own behaviour.
- **An empty title is replaced.** Loading a project turns an empty title into the default, not only a missing one.

## Model

| member | source | states |
|---|---|---|
| `Seqs.Filter` | src/components/PublicPortfolio/PublicPortfolio.tsx:63 | `filter` keeps only elements satisfying the predicate and never lengthens the list |
| `Seqs.FilterCount` | src/components/PublicPortfolio/PublicPortfolio.tsx:63 | every kept element occurs as often as in the input; an element is kept iff it is in the input and satisfies the predicate |
| `Seqs.FilterSubseq` | src/components/PublicPortfolio/PublicPortfolio.tsx:63 | the filter keeps the input order |
| `Seqs.FilterAppend` | src/components/Editor/ProjectEditor.tsx:77 | filtering a concatenation is the concatenation of the two filters |
| `Seqs.FilterDistinct` | src/components/Social/Leaderboard.tsx:15 | filtering a list without repeats yields no repeats |
| `Seqs.FindIndex` | src/utils/gamification.ts:153 | `findIndex` returns the first index whose key matches, or -1 exactly when none matches |
| `Seqs.MapWhere` | src/components/PublicPortfolio/PublicPortfolio.tsx:82-84 | the id-keyed `map` transforms every element with the id, keeps every other one and the length |
| `Seqs.ReplaceWhere` | src/components/Editor/ProjectEditor.tsx:75 | the id-keyed `map` replaces every element with the id by the new record, keeps every other one and the length |
| `Seqs.ReplaceWhereNoMatch` | src/components/Editor/ProjectEditor.tsx:75 | with no element carrying the id, the map returns the list unchanged |
| `Text.Trim` | src/components/PublicPortfolio/PublicPortfolio.tsx:116 | ECMAScript `trim`: strips leading and trailing whitespace and line terminators; its meaning "empty iff blank" is proved by `Text.TrimEmptyIffBlank` |
| `Text.TrimEmptyIffBlank` | src/components/PublicPortfolio/PublicPortfolio.tsx:116 | `s.trim()` is empty exactly when `s` consists only of ECMAScript whitespace and line terminators |
| `Gamification.Earns` | src/utils/gamification.ts:44-65 | the per-badge requirements; their relations are proved by `MasterCrafterImpliesFirstProject`, `CommunityStarImpliesPopularMaker` and `EarnsOnlyCatalogBadges` |
| `Gamification.MasterCrafterImpliesFirstProject` | src/utils/gamification.ts:53-59 | meeting master_crafter's requirement (5 completed projects) implies first_project's (1 completed) |
| `Gamification.CommunityStarImpliesPopularMaker` | src/utils/gamification.ts:60-66 | meeting community_star's requirement (100 points) implies popular_maker's (50 points) |
| `Gamification.EarnsOnlyCatalogBadges` | src/utils/gamification.ts:38-67 | only an id of the badge catalog has a requirement that can be met |
| `Gamification.GetAllUsers` | src/utils/gamification.ts:89-114 | returns the stored users, or the two seed users after writing them when none are stored; other keys unchanged |
| `Gamification.Insert` | src/utils/gamification.ts:118 | one insertion step of the ranking sort; the result is one longer and starts with the inserted user or the old head; order and contents are proved by `InsertOrdered` and `InsertPermutes` |
| `Gamification.InsertOrdered` | src/utils/gamification.ts:118 | inserting into a list ordered by non-increasing points keeps it ordered |
| `Gamification.InsertPermutes` | src/utils/gamification.ts:118 | inserting adds exactly that user and keeps all others |
| `Gamification.Ranked` | src/utils/gamification.ts:117-119 | the leaderboard is a permutation of the users ordered by non-increasing points |
| `Gamification.GetLeaderboard` | src/utils/gamification.ts:117-119 | returns the ranked list of all users (seeding them when absent) |
| `Gamification.Merge` | src/utils/gamification.ts:137 | the spread `{ ...stored, ...incoming }`; what survives the merge is stated by `Gamification.Upsert` |
| `Gamification.Upsert` | src/utils/gamification.ts:131-139 | an absent id is appended (length +1); a present id is merged at its first index (length unchanged); other users untouched; an appended record is the incoming user; a merged record carries the incoming username, points and badges, takes email, avatar, bio and isMock from the incoming user when it has them and keeps the stored ones otherwise |
| `Gamification.SetCurrentUser` | src/utils/gamification.ts:128-143 | the active user becomes the given user and the user list becomes the upsert; projects unchanged |
| `Gamification.Logout` | src/utils/gamification.ts:145-148 | removes only the active user |
| `Gamification.AddPoints` | src/utils/gamification.ts:151-157 | the first user with the id gains exactly delta; every other user and the length are unchanged |
| `Gamification.AddPointsTotal` | src/utils/gamification.ts:151-157 | the total of all points grows by delta when the user is found and not at all otherwise |
| `Gamification.CreditTimesPoints` | src/utils/gamification.ts:151-157 | a user at P points after N grants of V points has exactly P + N·V; everyone else is untouched |
| `Gamification.Credit` | src/utils/gamification.ts:151-164 | the active copy gains delta only when its id is the user id and that user was found; only its points change |
| `Gamification.UpdateUserPoints` | src/utils/gamification.ts:151-167 | the stored users and active user become the credited accounts; projects unchanged |
| `Gamification.Commented` | src/utils/gamification.ts:180-194 | the comment is appended at the end; prior comments, awards and photos kept (missing social = empty lists); nothing else changes |
| `Gamification.CommentAdded` | src/utils/gamification.ts:178-197 | the comment map over the projects; its shape is proved by `CommentAddedShape` |
| `Gamification.CommentAddedShape` | src/utils/gamification.ts:178-197 | every project with the id gains exactly one comment; the others are unchanged; the length is unchanged |
| `Gamification.AddComment` | src/utils/gamification.ts:170-201 | no-op without an active user or without stored projects; otherwise the comment (the user's id, name and avatar, and the text) is added and the commenter earns LEAVE_COMMENT even without a match |
| `Gamification.Awarded` | src/utils/gamification.ts:215-220 | the award id is appended (duplicates allowed); comments, photos and all other fields kept |
| `Gamification.AwardCredit` | src/utils/gamification.ts:224-229 | the author and gifter credits of an award; their effect on the point total is proved by `AwardCreditTotal` |
| `Gamification.AwardCreditTotal` | src/utils/gamification.ts:224-229 | a gift adds RECEIVE_AWARD for a named, known author and GIVE_APPRECIATION for a known gifter to the point total |
| `Gamification.AwardProject` | src/utils/gamification.ts:203-231 | no-op without a user, without stored projects or without a matching project; otherwise only the first matching project gains the award, then author and gifter are credited |
| `ProjectEditor.Normalize` | src/components/Editor/ProjectEditor.tsx:40-48 | empty materials become `['']`, empty steps `[{id:'1', text:''}]`, an empty title the default; id, status, lastEdited and description are copied |
| `ProjectEditor.LoadDraft` | src/components/Editor/ProjectEditor.tsx:32-52 | a draft is loaded exactly when the id is truthy, projects are stored and one carries the id; it is the normalised first such project |
| `ProjectEditor.EditTitle` | src/components/Editor/ProjectEditor.tsx:158 | only the title changes |
| `ProjectEditor.EditDescription` | src/components/Editor/ProjectEditor.tsx:165 | only the description changes |
| `ProjectEditor.AddMaterial` | src/components/Editor/ProjectEditor.tsx:109 | appends exactly one `''`; nothing else changes |
| `ProjectEditor.AddStep` | src/components/Editor/ProjectEditor.tsx:110 | appends exactly one blank step with the new id; nothing else changes |
| `ProjectEditor.EditMaterial` | src/components/Editor/ProjectEditor.tsx:185-189 | only material i changes; length kept |
| `ProjectEditor.RemoveMaterial` | src/components/Editor/ProjectEditor.tsx:191-193 | deletes exactly entry i (later entries shift down); never empty (`['']`); an out-of-range index keeps the list |
| `ProjectEditor.RemoveStep` | src/components/Editor/ProjectEditor.tsx:216-218 | removes every step with the id and keeps the others in order, each as often as before; never empty (the blank step) |
| `ProjectEditor.EditStepText` | src/components/Editor/ProjectEditor.tsx:224-227 | only the text of step i changes; length kept |
| `ProjectEditor.AttachImage` | src/components/Editor/ProjectEditor.tsx:116-119 | sets the image exactly on the steps with the id; others unchanged |
| `ProjectEditor.ToRecord` | src/components/Editor/ProjectEditor.tsx:67-72 | the record a commit writes; that it carries only the draft's fields is proved by `SaveDropsSocial` |
| `ProjectEditor.CommitRecord` | src/components/Editor/ProjectEditor.tsx:74-78 | with a project id every record with that id is replaced and the others kept (length unchanged); without one the record is appended |
| `ProjectEditor.Saved` | src/components/Editor/ProjectEditor.tsx:62-78 | the collection after a commit; its properties are proved by `SaveUnmatchedAddsNothing`, `SaveWithoutIdAppends`, `NewProjectSavesDuplicate`, `ResaveIdempotent` and `PublishedIsListed` |
| `ProjectEditor.SaveUnmatchedAddsNothing` | src/components/Editor/ProjectEditor.tsx:74-75 | with a project id no stored record carries, the commit adds nothing |
| `ProjectEditor.SaveWithoutIdAppends` | src/components/Editor/ProjectEditor.tsx:76-77 | without a project id exactly one record with the fresh id and the draft's contents is appended after the unchanged old records |
| `ProjectEditor.NewProjectSavesDuplicate` | src/components/Editor/ProjectEditor.tsx:67-78 | two autosaves of a new project leave two records with the same steps under two fresh ids |
| `ProjectEditor.ResaveIdempotent` | src/components/Editor/ProjectEditor.tsx:74-75 | with a project id, committing the same draft again leaves the collection as it was |
| `ProjectEditor.SaveDropsSocial` | src/components/Editor/ProjectEditor.tsx:67-72 | the committed record has the draft's fields only: social, reactions, views and author are gone |
| `ProjectEditor.SolarRoverAutosave` | src/components/Editor/ProjectEditor.tsx:62-80 | the "Solar Rover" draft autosaved into an empty store becomes one draft record with materials `["Motor"]`, one step "Attach wheels" and the fresh id |
| `ProjectEditor.SaveProject` | src/components/Editor/ProjectEditor.tsx:62-86 | the stored projects become the commit of the draft; users and active user unchanged |
| `ProjectEditor.Editor.constructor` | src/components/Editor/ProjectEditor.tsx:19-60 | the draft is the loaded project or the initial draft, and one save of it is pending |
| `ProjectEditor.Editor.SetData` | src/components/Editor/ProjectEditor.tsx:55-60 | a draft change cancels the pending save and arms one for the new draft: at most one pending save, holding the current draft |
| `ProjectEditor.Editor.FireTimer` | src/components/Editor/ProjectEditor.tsx:56-58 | the pending save commits the current draft with its status or draft; without one nothing is written |
| `ProjectEditor.Editor.Publish` | src/components/Editor/ProjectEditor.tsx:88-104 | the draft becomes completed and is committed at once by the same replace-or-append rule |
| `ProjectEditor.Editor.Teardown` | src/components/Editor/ProjectEditor.tsx:59 | unmounting cancels the pending save without committing |
| `PublicPortfolio.Gallery` | src/components/PublicPortfolio/PublicPortfolio.tsx:63 | the completed-only filter; its contents are proved by `GalleryExactlyCompleted` |
| `PublicPortfolio.GalleryExactlyCompleted` | src/components/PublicPortfolio/PublicPortfolio.tsx:63 | the gallery holds exactly the completed projects, in stored order, with their multiplicity |
| `PublicPortfolio.PublishNewExtendsGallery` | src/components/Editor/ProjectEditor.tsx:94-104 | publishing without an editor id makes the gallery the old gallery followed by exactly the published record |
| `PublicPortfolio.PublishedIsListed` | src/components/Editor/ProjectEditor.tsx:94-104 | the published record is in the gallery iff the editor had no id or a stored project carries it |
| `PublicPortfolio.Resync` | src/components/PublicPortfolio/PublicPortfolio.tsx:66-70 | an open project is replaced by the gallery's copy with its id when there is one; no selection stays none |
| `PublicPortfolio.Viewed` | src/components/PublicPortfolio/PublicPortfolio.tsx:83 | views becomes old views (missing = 0) + 1; nothing else changes |
| `PublicPortfolio.IncrementViews` | src/components/PublicPortfolio/PublicPortfolio.tsx:82-84 | the view-count map over the projects; its shape is proved by `IncrementViewsShape` |
| `PublicPortfolio.IncrementViewsShape` | src/components/PublicPortfolio/PublicPortfolio.tsx:82-84 | exactly the projects with the id gain one view; others and the length unchanged |
| `PublicPortfolio.Reacted` | src/components/PublicPortfolio/PublicPortfolio.tsx:95-103 | love/appreciate increment their counter by 1 (missing reactions = zeros), other counters kept; badge increments the separate `badge` key, `badges` unchanged |
| `PublicPortfolio.ApplyReaction` | src/components/PublicPortfolio/PublicPortfolio.tsx:94-104 | the reaction map over the projects; its shape is proved by `ApplyReactionShape` |
| `PublicPortfolio.ApplyReactionShape` | src/components/PublicPortfolio/PublicPortfolio.tsx:94-106 | exactly the projects with the id are reacted on; others and the length unchanged |
| `PublicPortfolio.UpdatesKeepGallerySize` | src/components/PublicPortfolio/PublicPortfolio.tsx:82-86 | views and reactions never change how many projects the gallery lists |
| `PublicPortfolio.Lookup` | src/components/PublicPortfolio/PublicPortfolio.tsx:169 | finds the catalog award with the id exactly when one exists; unknown ids resolve to nothing |
| `PublicPortfolio.MiniAwards` | src/components/PublicPortfolio/PublicPortfolio.tsx:168-171 | the mini row looks up the first min(5, n) awards in order |
| `PublicPortfolio.MoreAwards` | src/components/PublicPortfolio/PublicPortfolio.tsx:172 | the "+N" after the mini award row; proved by `MiniRowAccountsForAll` |
| `PublicPortfolio.MiniRowAccountsForAll` | src/components/PublicPortfolio/PublicPortfolio.tsx:168-172 | "+N" appears iff there are more than 5 awards, and the row plus N account for every award |
| `PublicPortfolio.OccurrencesCount` | src/components/PublicPortfolio/PublicPortfolio.tsx:269 | the filter-length count is the number of occurrences of the id |
| `PublicPortfolio.InventoryOf` | src/components/PublicPortfolio/PublicPortfolio.tsx:268-277 | each listed entry is a catalog award with count equal to its occurrences and > 0 |
| `PublicPortfolio.InventoryComplete` | src/components/PublicPortfolio/PublicPortfolio.tsx:268-277 | every catalog award that occurs is listed |
| `PublicPortfolio.InventoryDistinct` | src/components/PublicPortfolio/PublicPortfolio.tsx:268-277 | over a catalog without repeats no award is listed twice |
| `PublicPortfolio.AwardsDistinct` | src/utils/gamification.ts:70-75 | the award catalog has no repeated entry |
| `PublicPortfolio.Inventory` | src/components/PublicPortfolio/PublicPortfolio.tsx:268-277 | the award inventory over the catalog; its entries and counts are proved by `InventoryCounts` |
| `PublicPortfolio.InventoryCounts` | src/components/PublicPortfolio/PublicPortfolio.tsx:264-279 | the inventory lists each held catalog award once, with its number of occurrences; unknown ids are not counted and zero counts omitted |
| `PublicPortfolio.AwardTwiceCountsTwo` | src/utils/gamification.ts:217-220 | the same award given twice yields two entries in the awards list and an inventory count of 2 |
| `PublicPortfolio.ShownSteps` | src/components/PublicPortfolio/PublicPortfolio.tsx:183 | the filter of the steps that are displayed; proved by `ShownStepsExactly` |
| `PublicPortfolio.ShownStepsExactly` | src/components/PublicPortfolio/PublicPortfolio.tsx:183 | the shown steps are exactly those with non-blank text or an image, in order, each as often as in the list |
| `PublicPortfolio.ShownMaterials` | src/components/PublicPortfolio/PublicPortfolio.tsx:238 | the filter of the materials that are displayed; proved by `ShownMaterialsExactly` |
| `PublicPortfolio.ShownMaterialsExactly` | src/components/PublicPortfolio/PublicPortfolio.tsx:238 | the shown materials are exactly the non-blank ones, in order, each as often as in the list |
| `PublicPortfolio.SinkStep` | src/components/PublicPortfolio/PublicPortfolio.tsx:216 | swapping the sinking comment past an older one keeps the remaining order and the comments |
| `PublicPortfolio.SinkInto` | src/components/PublicPortfolio/PublicPortfolio.tsx:216 | one insertion step extends the newest-first prefix by one element, permuting the array |
| `PublicPortfolio.SortNewestFirst` | src/components/PublicPortfolio/PublicPortfolio.tsx:216 | the in-place sort leaves the comments newest first and a permutation of the originals |
| `PublicPortfolio.Portfolio.constructor` | src/components/PublicPortfolio/PublicPortfolio.tsx:45-57 | mounting reads the active user and loads the gallery; nothing is selected |
| `PublicPortfolio.Portfolio.LoadProjects` | src/components/PublicPortfolio/PublicPortfolio.tsx:59-72 | with stored projects the gallery becomes the completed ones and the selection is resynced; otherwise nothing changes |
| `PublicPortfolio.Portfolio.OpenProjectDetail` | src/components/PublicPortfolio/PublicPortfolio.tsx:74-88 | the project is selected and, with stored projects, its views are incremented and the gallery refreshed |
| `PublicPortfolio.Portfolio.HandleReaction` | src/components/PublicPortfolio/PublicPortfolio.tsx:90-112 | the reaction is written; the acting user (not the owner) is credited GIVE_APPRECIATION and the gallery reloads; no active user stops after the write; no stored projects do nothing |
| `PublicPortfolio.Portfolio.SetCommentText` | src/components/PublicPortfolio/PublicPortfolio.tsx:206 | only the comment box changes |
| `PublicPortfolio.Portfolio.HandlePostComment` | src/components/PublicPortfolio/PublicPortfolio.tsx:114-121 | blank text or no open project changes nothing; otherwise the comment is added as addComment does, the box is cleared, and the gallery and open project are reloaded from storage |
| `PublicPortfolio.Portfolio.HandleAward` | src/components/PublicPortfolio/PublicPortfolio.tsx:123-128 | with an open project, the storage effect is exactly awardProject's and the gallery and open project are reloaded from storage; without one nothing changes |
| `PublicPortfolio.Portfolio.RefreshActiveUser` | src/components/PublicPortfolio/PublicPortfolio.tsx:54 | the storage listener re-reads the active user and nothing else |
| `PresentationMode.NextSlide` | src/components/Editor/PresentationMode.tsx:25-27 | the Next update of the counter; its range and no-op case are proved by `StepsStayInRange` and `NextPrevRoundTrip` |
| `PresentationMode.StepsStayInRange` | src/components/Editor/PresentationMode.tsx:25-31 | next and previous keep the counter in range; each is a no-op exactly when its button is disabled |
| `PresentationMode.PrevSlide` | src/components/Editor/PresentationMode.tsx:29-31 | the Previous update of the counter; its range and no-op case are proved by `StepsStayInRange` and `NextPrevRoundTrip` |
| `PresentationMode.NextPrevRoundTrip` | src/components/Editor/PresentationMode.tsx:25-31 | next then previous (and previous then next) return to the same slide when enabled |
| `PresentationMode.Classify` | src/components/Editor/PresentationMode.tsx:33-78 | slide 0 is the title, slides 1..n show `steps[current-1]`, any later slide is the conclusion |
| `PresentationMode.EveryStepOnItsSlide` | src/components/Editor/PresentationMode.tsx:49-50 | step i appears on slide i+1, and the last of `steps.length + 2` slides is the conclusion |
| `PresentationMode.Slideshow.constructor` | src/components/Editor/PresentationMode.tsx:18 | the slideshow starts at slide 0 |
| `PresentationMode.Slideshow.Next` | src/components/Editor/PresentationMode.tsx:25-27 | moves forward only below the last slide; the counter stays in `[0, steps.length + 1]` |
| `PresentationMode.Slideshow.Prev` | src/components/Editor/PresentationMode.tsx:29-31 | moves back only above slide 0; the counter stays in range |
| `PresentationMode.Slideshow.JumpTo` | src/components/Editor/PresentationMode.tsx:91-92 | a dot jumps to any slide in range, keeping the invariant |
| `PresentationMode.Slideshow.Showing` | src/components/Editor/PresentationMode.tsx:85 | the shown slide is the title at 0, the conclusion exactly at the last slide, and otherwise the step before the counter |
| `Leaderboard.BadgesDistinct` | src/utils/gamification.ts:38-67 | the badge catalog has no repeated entry |
| `Leaderboard.UserBadges` | src/components/Social/Leaderboard.tsx:14-16 | `getUserBadges`; its contents are proved by `UserBadgesExactly` |
| `Leaderboard.UserBadgesExactly` | src/components/Social/Leaderboard.tsx:14-16 | a user's badges are exactly the catalog entries whose id the user holds, in catalog order, each once; unknown ids ignored |
| `Leaderboard.VisibleBadges` | src/components/Social/Leaderboard.tsx:65 | exactly the first min(3, n) of the user's n badges |
| `Leaderboard.MoreBadges` | src/components/Social/Leaderboard.tsx:70-71 | the "+N" after the badge icons; proved by `MoreBadgesCount` and `RepeatedIdsCountInOverflow` |
| `Leaderboard.MoreBadgesCount` | src/components/Social/Leaderboard.tsx:70-71 | "+N" is shown iff the raw id list has more than 3 ids, with N = length − 3 |
| `Leaderboard.RepeatedIdsCountInOverflow` | src/components/Social/Leaderboard.tsx:65-71 | four copies of one id show one icon and "+1": the overflow counts raw ids |
| `Leaderboard.RankLabel` | src/components/Social/Leaderboard.tsx:51 | gold, silver, bronze for indices 0, 1, 2, otherwise `#(index+1)` |
| `Leaderboard.PlaceClass` | src/components/Social/Leaderboard.tsx:48 | the row's place class; that it appears exactly with a medal is proved by `PlaceClassMatchesMedal` |
| `Leaderboard.PlaceClassMatchesMedal` | src/components/Social/Leaderboard.tsx:48-51 | a row has a place class exactly when it shows a medal |
| `Leaderboard.Rows` | src/components/Social/Leaderboard.tsx:45-80 | one row per user in list order, with rank, place class, icons and overflow of its index and user |
| `Leaderboard.Mount` | src/components/Social/Leaderboard.tsx:9-12 | the rows are those of the ranked users (seeded when absent) |
| `Leaderboard.RowsRanked` | src/components/Social/Leaderboard.tsx:10-11 | the rows list every user once, by non-increasing points, with medals only on the top three |

## Left out

- Local storage I/O and JSON encoding: the stored collections are modelled as parsed values. An absent key is `None`.
- Corrupt storage payloads are not modelled.
- The `storage` events the social engine dispatches are not modelled, nor when listeners run. `PublicPortfolio.Portfolio.RefreshActiveUser` models only the listener body.
- Real time:
  - the 2000 ms debounce, the 500 ms "Saving…" indicator and the last-saved readout are not modelled;
  - a timer firing is an explicit event;
  - `Date.now()`, `Math.random()` and the date formats are parameters.
- Comment timestamps are ISO strings in the source. The model uses the instant in milliseconds, which is what the sort compares.
- `alert`, `window.scrollTo`, navigation callbacks and all rendering and styling are left out.
- `showPresentation` only switches the view; it is kept as a field and never read.
- UI-only fields are not modelled:
  - the editor's active section;
  - the leaderboard's time filter, which does not affect the list;
  - `difficulty`, `category`, `timeEstimated`, `thumbnail` and `posterData`.
- `FileReader` reading an image: only the resulting data URI is modelled (`ProjectEditor.AttachImage`).
- `PublicPortfolio.SortNewestFirst`: sorts an array of comments. The model does not state that this array is the one shared with the selected project's state object, and it does not prove the sort is stable.
- `Gamification.Ranked`: stated as ordered by points and a permutation. It is not shown to be the stable order JavaScript's sort produces for equal points.
- The poster editor, the Google login view, the dashboard and the application shell are not part of this model. Their only record logic is in the login view, which calls `setCurrentUser` and also calls `getAllUsers` on every render. That second call writes the seed users when the user key is absent (modelled by `Gamification.GetAllUsers`).
- Gamification.Upsert: an incoming property that is present but `undefined` is treated as absent, so the merge keeps the stored value. The login view always sets `email` and `avatar` from the token's claims. When a claim is missing, the spread in the source overwrites the stored value with `undefined`, and the JSON write then drops the property; the model does not capture that loss.

# Portfolio admin tabs and public projects section, modelled in Dafny

The portfolio site has a public front page and an admin dashboard. Both are
React components backed by a hosted database. This project models the list
and state logic inside them, with every backend call reduced to an outcome
passed in as a parameter:

- `SkillsTab`: the ordered skill categories and the skills that name their
  category by string. Covers adding, renaming (the rename cascades to skills),
  deleting (skills are orphaned), moving up and down, the default-category
  fallback, the per-category cards and the rows inserted on save.
- `ProjectsTab`: the project list with drag-and-drop reordering and the rank
  writes it starts. Also the rank of a new project, the search filter, and
  the editor draft with its tags, image removal and all-or-nothing uploads.
- `MessagesTab`: the inbox with its read toggle, deletion, pages of ten,
  page count and unread counter.
- `ExperienceTab`: the positions list and the skills field. The field is
  typed as one comma-separated string, parsed on save and joined with
  `", "` for display.
- `ProfileTab`: the profile record, the hero-role list typed one role at a
  time, the tolerated "no rows" fetch result, and the upserted record.
- `PublicProjects`: covers the public section's image slider, the split into
  front-end and UX projects, the category chip and the two-digit running
  numbers.

Each admin tab is a class whose fields are the component's `useState`
variables. Its methods are the event handlers. The pure parts (filters,
maps, slices, the parse, the rank computation) are functions. Lemmas state
their properties. The JavaScript string and array operations the tabs rely
on live in `Lists` and `Text`:

- `filter`, `map`, `splice` and removal of every copy of a value
- `trim` with ECMAScript's whitespace set
- `split` on one character, and `join`
- ASCII `toLowerCase`, `includes`, and `toString().padStart`

Backend outcomes enter as parameters:

- `ok` is whether a write succeeded.
- `confirmed` is the answer to a confirmation dialog.
- `rows` / `data` / `errorCode` are what a query returned.
- `outcomes` are the per-file upload results.
- `user` is the signed-in user (None when signed out).
- `freshId` and `now` stand for a random id and a timestamp.

## Model

| member | source | states |
|---|---|---|
| `Lists.RemoveAll` | src/components/admin/ProjectsTab.tsx:306-311 | every copy of the value is gone; every other value keeps its number of copies; the length drops by the number of copies |
| `Lists.RemoveAllIsFilter` | src/components/admin/ProjectsTab.tsx:309 | removing a value is the same as filtering for every other value |
| `Lists.RemoveAllConcat` | src/components/admin/ProfileTab.tsx:97-100 | removal distributes over concatenation, so the survivors keep their relative order |
| `Lists.RemoveAllAbsent` | src/components/admin/ProjectsTab.tsx:309 | removing a value that is not in the list leaves the list unchanged |
| `Lists.MapConcat` | src/components/admin/ExperienceTab.tsx:105 | `map` distributes over concatenation |
| `Text.Trim` | src/components/admin/SkillsTab.tsx:109 | the result has no whitespace at either end; it is empty exactly when the input is all whitespace; an already trimmed string is unchanged |
| `Text.TrimIsSlice` | src/components/admin/SkillsTab.tsx:109 | the trimmed string is a contiguous slice of the input with only whitespace before and after it |
| `Text.Split` | src/components/admin/ExperienceTab.tsx:105 | at least one piece; no piece contains the separator; joining the pieces with the separator gives back the input |
| `Text.SplitConcat` | src/components/admin/ExperienceTab.tsx:105 | splitting `a + sep + b` gives the pieces of `a` followed by the pieces of `b` |
| `Text.Join` | src/components/admin/ExperienceTab.tsx:263 | a one-element array joins to that element |
| `Text.JoinAvoids` | src/components/admin/ExperienceTab.tsx:263 | a character that is in no element and not in the separator is not in the join |
| `Text.SplitJoinedPieces` | src/components/admin/ExperienceTab.tsx:105 | a comma-free list joined with `", "` splits into as many pieces; each piece after the first is its element behind one blank |
| `Text.NatToDecimal` | src/components/Projects.tsx:367 | the decimal form is non-empty, all digits, and has no leading zero |
| `Text.DecimalRoundTrip` | src/components/Projects.tsx:367 | reading the decimal form back gives the number |
| `Text.PadStart` | src/components/Projects.tsx:367 | the result has length max(len, width); the input is its suffix; every added character is the pad |
| `Text.ZeroPadValue` | src/components/Projects.tsx:411 | zero padding keeps a digit string all digits and keeps its value |
| `Text.PadStartStep` | src/components/Projects.tsx:367 | padding a too-short string is the same as padding it after one more fill character in front |
| `Text.LowerChar` | src/components/admin/ProjectsTab.tsx:349 | an ASCII capital maps to its lower-case letter, 32 code points up; every other character is unchanged |
| `Text.Lower` | src/components/admin/ProjectsTab.tsx:349 | the length is kept and each character is lower-cased on its own |
| `Text.Contains` | src/components/admin/ProjectsTab.tsx:349 | every string includes the empty string; no string includes a longer one |
| `SkillsTab.WithoutSkill` | src/components/admin/SkillsTab.tsx:121-123 | a skill survives exactly when its id differs; survivors keep their multiplicity |
| `SkillsTab.WithoutSkillConcat` | src/components/admin/SkillsTab.tsx:121-123 | deleting distributes over concatenation, so the remaining skills keep their order |
| `SkillsTab.WithoutCategory` | src/components/admin/SkillsTab.tsx:179 | a category survives exactly when its name differs, and each survivor keeps its number of copies |
| `SkillsTab.WithoutCategoryConcat` | src/components/admin/SkillsTab.tsx:179 | deleting distributes over concatenation, so the remaining categories keep their order |
| `SkillsTab.DeleteCategoryRemovesName` | src/components/admin/SkillsTab.tsx:179 | the deleted name no longer occurs; the list shrinks by the number of entries of that name |
| `SkillsTab.WithCategoryRenamed` | src/components/admin/SkillsTab.tsx:161-165 | the length, ids, names and ranks are kept. Skills of other categories are unchanged. Every skill of the old category moves to the new name, and after a real rename none is left in the old one |
| `SkillsTab.InCategory` | src/components/admin/SkillsTab.tsx:316-317 | a card holds exactly the skills whose category equals its name |
| `SkillsTab.Groups` | src/components/admin/SkillsTab.tsx:316-317 | the cards follow category order, one per category, each with that category's skills |
| `SkillsTab.OrphanInNoGroup` | src/components/admin/SkillsTab.tsx:178 | a skill whose category names no category appears in no card |
| `SkillsTab.GroupsShowListedSkills` | src/components/admin/SkillsTab.tsx:316-317 | with distinct category names, the cards together show each skill of a listed category exactly once |
| `SkillsTab.SkillsToInsert` | src/components/admin/SkillsTab.tsx:221 | one row per skill, in order; each row is its skill with only the id dropped |
| `SkillsTab.Moved` | src/components/admin/SkillsTab.tsx:186-194 | moving a row gives a permutation of the same length |
| `SkillsTab.MoveUpThenDown` | src/components/admin/SkillsTab.tsx:188-191 | moving a row up and then back down restores the list |
| `SkillsTab.EditCanDuplicateNames` | src/components/admin/SkillsTab.tsx:152-158 | in any list of two or more categories, giving row i the name of another row j leaves two categories of that name, because the edit path does not check for duplicates |
| `SkillsTab.SkillsEditor.constructor` | src/components/admin/SkillsTab.tsx:60-72 | the initial field values |
| `SkillsTab.SkillsEditor.FetchData` | src/components/admin/SkillsTab.tsx:78-106 | signed out or a failed skills query changes nothing. Otherwise the skills are the rows, or [] for no data. Without a stored array the categories become the four defaults, selecting the first. With one, the categories are that array, and the selection moves to its first name only when it is non-empty |
| `SkillsTab.SkillsEditor.SelectCategory` | src/components/admin/SkillsTab.tsx:282 | the clicked category becomes the selection |
| `SkillsTab.SkillsEditor.SetNewSkill` | src/components/admin/SkillsTab.tsx:295 | the input holds the typed text |
| `SkillsTab.SkillsEditor.AddSkill` | src/components/admin/SkillsTab.tsx:108-119 | a blank name or no selected category changes nothing. Otherwise one skill is appended with the trimmed name and the selected category, and the input is cleared |
| `SkillsTab.SkillsEditor.RemoveSkill` | src/components/admin/SkillsTab.tsx:121-123 | the skills become `WithoutSkill` of the old list |
| `SkillsTab.SkillsEditor.StartEditCategory` | src/components/admin/SkillsTab.tsx:126-131 | the editor opens on row `index`; a missing icon becomes `Code2` |
| `SkillsTab.SkillsEditor.StartAddCategory` | src/components/admin/SkillsTab.tsx:133-138 | the editor opens empty, in add mode |
| `SkillsTab.SkillsEditor.CancelCategoryEdit` | src/components/admin/SkillsTab.tsx:421-424 | the editor closes |
| `SkillsTab.SkillsEditor.SetEditCategory` | src/components/admin/SkillsTab.tsx:380 | the editor holds the typed name and the chosen icon |
| `SkillsTab.SkillsEditor.SaveCategoryEdit` | src/components/admin/SkillsTab.tsx:140-175 | when `EditBlocked` holds nothing changes: a blank name, an added name that exists, a stale index. Otherwise the editor closes. An add appends `{trimmed name, icon}` last. Saving with no index leaves the lists alone. An edit replaces only row i; a changed name cascades to the skills through `WithCategoryRenamed`, and the selection follows the rename |
| `SkillsTab.SkillsEditor.ApplyCategoryEdit` | src/components/admin/SkillsTab.tsx:152-169 | row i takes the new name and icon. A changed name renames the category in the skills and moves the selection with it. An unchanged name leaves both alone |
| `SkillsTab.SkillsEditor.RemoveCategory` | src/components/admin/SkillsTab.tsx:177-184 | only after confirmation. The categories become `WithoutCategory`, and the skills are not touched. A deleted selection moves to the first name of the list before deletion |
| `SkillsTab.SkillsEditor.MoveCategory` | src/components/admin/SkillsTab.tsx:186-194 | the new list is `Moved`, a permutation. Moving up at index 0 or down at the last index changes nothing |
| `ProjectsTab.NewDraft` | src/components/admin/ProjectsTab.tsx:188-197 | the new draft has empty title and description, no images or tags, category `前端`, and no id |
| `ProjectsTab.DraftOf` | src/components/admin/ProjectsTab.tsx:199-202 | the draft carries every field of the project: id, title, description, images, tags, links, category and rank |
| `ProjectsTab.MaxOrder` | src/components/admin/ProjectsTab.tsx:238-240 | the maximum of `display_order \|\| 0`: no project exceeds it and one reaches it |
| `ProjectsTab.NewRank` | src/components/admin/ProjectsTab.tsx:237-244 | the new rank is 1 for an empty list. Otherwise it is exactly one above the largest rank present, a missing rank counting as 0 |
| `ProjectsTab.DataOf` | src/components/admin/ProjectsTab.tsx:219-228 | the saved fields are copied from the draft; missing images and tags become []; the timestamp is `now` |
| `ProjectsTab.SaveRequest` | src/components/admin/ProjectsTab.tsx:230-245 | a draft with an id is an update of that row. Any other draft is an insert whose rank is `NewRank` of the list |
| `ProjectsTab.EditThenSaveKeepsFields` | src/components/admin/ProjectsTab.tsx:199-245 | opening a project for editing and saving it at once writes an update of that row with its own fields and the new timestamp |
| `ProjectsTab.WithoutProject` | src/components/admin/ProjectsTab.tsx:210 | a project survives exactly when its id differs; survivors keep their multiplicity |
| `ProjectsTab.WithoutProjectConcat` | src/components/admin/ProjectsTab.tsx:210 | deleting distributes over concatenation, so the remaining projects keep their order |
| `ProjectsTab.WithTag` | src/components/admin/ProjectsTab.tsx:296-300 | the trimmed tag is present afterwards; it is appended only when absent |
| `ProjectsTab.WithTagKeepsDistinct` | src/components/admin/ProjectsTab.tsx:296-300 | a duplicate-free tag list stays duplicate-free |
| `ProjectsTab.UploadAll` | src/components/admin/ProjectsTab.tsx:263-284 | the result exists exactly when every upload succeeds; it is then the old images followed by the new URLs in file order. A failure stops the loop at the first failing file |
| `ProjectsTab.Cover` | src/components/admin/ProjectsTab.tsx:116 | a cover is shown exactly when the first image exists and is non-empty, and it is that image |
| `ProjectsTab.RemoveCoverPromotesNext` | src/components/admin/ProjectsTab.tsx:116 | after removing image 0 the former image 1 is first and becomes the cover |
| `ProjectsTab.FindIndex` | src/components/admin/ProjectsTab.tsx:318-319 | the index of the first project with that id |
| `ProjectsTab.ArrayMove` | src/components/admin/ProjectsTab.tsx:321 | the length is kept and the moved element lands at the target index |
| `ProjectsTab.ArrayMoveSpec` | src/components/admin/ProjectsTab.tsx:321 | the moved item lands at `to`; taking it out again leaves the others in their old order; the result is a permutation |
| `ProjectsTab.RankUpdates` | src/components/admin/ProjectsTab.tsx:324-327 | one update per project, in list order, with its id |
| `ProjectsTab.RankUpdatesContiguous` | src/components/admin/ProjectsTab.tsx:324-327 | the ranks run 1, 2, ..., n without gaps |
| `ProjectsTab.Ids` | src/components/admin/ProjectsTab.tsx:324-325 | the ids in list order |
| `ProjectsTab.ApplyRank` | src/components/admin/ProjectsTab.tsx:333-336 | one rank write keeps the rows and their ids |
| `ProjectsTab.ApplyRanks` | src/components/admin/ProjectsTab.tsx:332-337 | the writes in order keep the rows and their ids |
| `ProjectsTab.RankWritesPrefix` | src/components/admin/ProjectsTab.tsx:330-341 | with distinct ids, after the first k writes rows 0..k-1 carry ranks 1..k and the rest are untouched |
| `ProjectsTab.MatchesQuery` | src/components/admin/ProjectsTab.tsx:348-351 | an empty query matches every project; a match needs a title or category at least as long as the query |
| `ProjectsTab.FilteredProjects` | src/components/admin/ProjectsTab.tsx:348-351 | a project is shown exactly when its title or category contains the query, ignoring ASCII case |
| `ProjectsTab.EmptyQueryKeepsAll` | src/components/admin/ProjectsTab.tsx:348-351 | an empty query shows every project, in order |
| `ProjectsTab.ProjectsEditor.constructor` | src/components/admin/ProjectsTab.tsx:147-155 | the initial field values |
| `ProjectsTab.ProjectsEditor.FetchProjects` | src/components/admin/ProjectsTab.tsx:172-186 | a failed query changes nothing; otherwise the list is the rows, or [] for no data |
| `ProjectsTab.ProjectsEditor.SetFilter` | src/components/admin/ProjectsTab.tsx:362-363 | the search box holds the typed text |
| `ProjectsTab.ProjectsEditor.Shown` | src/components/admin/ProjectsTab.tsx:348-351 | the shown rows are `FilteredProjects` of the list and the query |
| `ProjectsTab.ProjectsEditor.CreateNew` | src/components/admin/ProjectsTab.tsx:188-197 | the draft becomes `NewDraft` |
| `ProjectsTab.ProjectsEditor.Edit` | src/components/admin/ProjectsTab.tsx:199-202 | the draft becomes the project |
| `ProjectsTab.ProjectsEditor.Delete` | src/components/admin/ProjectsTab.tsx:204-214 | only a confirmed, successful delete changes the list, to `WithoutProject` |
| `ProjectsTab.ProjectsEditor.Save` | src/components/admin/ProjectsTab.tsx:216-246 | the write issued is `SaveRequest` of the draft and the list |
| `ProjectsTab.ProjectsEditor.SetTagInput` | src/components/admin/ProjectsTab.tsx:453 | the tag input holds the typed text |
| `ProjectsTab.ProjectsEditor.AddTag` | src/components/admin/ProjectsTab.tsx:293-304 | only Enter with a non-blank input acts. It then sets the tags to `WithTag` of the trimmed input and clears the input |
| `ProjectsTab.ProjectsEditor.RemoveTag` | src/components/admin/ProjectsTab.tsx:306-311 | the tags become `RemoveAll` of the tag; a draft without tags keeps none; nothing else changes |
| `ProjectsTab.ProjectsEditor.RemoveImage` | src/components/admin/ProjectsTab.tsx:516-519 | the images become the old ones without index `idx`; removing index 0 makes the former index 1 first |
| `ProjectsTab.ProjectsEditor.ImageUpload` | src/components/admin/ProjectsTab.tsx:258-291 | no files, or any failed upload, changes nothing. Otherwise the images are the old ones followed by the new URLs in file order |
| `ProjectsTab.ProjectsEditor.DragEnd` | src/components/admin/ProjectsTab.tsx:313-346 | with no drop target, or a drop on the dragged item, nothing changes and nothing is written. Otherwise the list becomes `ArrayMove` of the two found indices, and the writes are its `RankUpdates` |
| `MessagesTab.MarkTwiceRestores` | src/components/admin/MessagesTab.tsx:53-61 | pressing the button twice, each time with the flag it shows, restores the list |
| `MessagesTab.WithReadSet` | src/components/admin/MessagesTab.tsx:61 | the length is kept. Messages with another id are unchanged. The message with the id gets the flipped flag and keeps every other field |
| `MessagesTab.WithoutMessage` | src/components/admin/MessagesTab.tsx:79 | a message survives exactly when its id differs; survivors keep their multiplicity |
| `MessagesTab.WithoutMessageConcat` | src/components/admin/MessagesTab.tsx:79 | deleting distributes over concatenation, so the remaining messages keep their order |
| `MessagesTab.PageItems` | src/components/admin/MessagesTab.tsx:87 | a page holds at most ten messages: those from (page-1)*10 on, clipped to the list |
| `MessagesTab.PageCount` | src/components/admin/MessagesTab.tsx:164 | the page count is ceil(n/10): enough pages for all messages, and no empty last page |
| `MessagesTab.PagerShown` | src/components/admin/MessagesTab.tsx:161-164 | the pager is shown exactly when there is more than one page |
| `MessagesTab.PagesPrefix` | src/components/admin/MessagesTab.tsx:87 | pages 1..k together are the list's first 10k messages |
| `MessagesTab.PagesCoverAll` | src/components/admin/MessagesTab.tsx:87 | all pages together are the whole list |
| `MessagesTab.UnreadCount` | src/components/admin/MessagesTab.tsx:99 | the unread count plus the number of read messages is the number of messages |
| `MessagesTab.NoUnreadIffAllRead` | src/components/admin/MessagesTab.tsx:99 | the counter is zero exactly when every message is read |
| `MessagesTab.FilterUpdate` | src/components/admin/MessagesTab.tsx:99 | replacing one element changes a filter's count by the change in that element alone |
| `MessagesTab.ToggleMovesUnreadByOne` | src/components/admin/MessagesTab.tsx:99 | with distinct ids, toggling one message moves the unread count by exactly one |
| `MessagesTab.Inbox.constructor` | src/components/admin/MessagesTab.tsx:28-30 | the inbox starts empty on page 1 |
| `MessagesTab.Inbox.FetchMessages` | src/components/admin/MessagesTab.tsx:37-51 | a failed query changes nothing; otherwise the list is the rows, or [] for no data |
| `MessagesTab.Inbox.MarkAsRead` | src/components/admin/MessagesTab.tsx:53-67 | only a successful update changes the list, to `WithReadSet` |
| `MessagesTab.Inbox.Delete` | src/components/admin/MessagesTab.tsx:69-85 | only a confirmed, successful delete changes the list, to `WithoutMessage` |
| `MessagesTab.Inbox.SetPage` | src/components/admin/MessagesTab.tsx:166 | the page becomes the chosen page, which is at least 1 |
| `MessagesTab.Inbox.Items` | src/components/admin/MessagesTab.tsx:87 | the rendered rows are `PageItems` of the current page |
| `ExperienceTab.TrimKeepsOut` | src/components/admin/ExperienceTab.tsx:105 | trimming never introduces a character |
| `ExperienceTab.TrimmedPiecesClean` | src/components/admin/ExperienceTab.tsx:105 | the trimmed pieces of a comma split are trimmed and comma-free |
| `ExperienceTab.FilterKeepsClean` | src/components/admin/ExperienceTab.tsx:105 | dropping the empty pieces leaves only clean skills |
| `ExperienceTab.ParseSkillList` | src/components/admin/ExperienceTab.tsx:104-105 | every parsed skill is non-empty, trimmed and comma-free |
| `ExperienceTab.ParseConcat` | src/components/admin/ExperienceTab.tsx:105 | parsing `a + "," + b` gives the skills of `a` followed by those of `b`, so the parse keeps the typed order |
| `ExperienceTab.ParsePiece` | src/components/admin/ExperienceTab.tsx:105 | a comma-free text parses to no skill when blank, otherwise to its trimmed self |
| `ExperienceTab.ParseKeepsEveryPiece` | src/components/admin/ExperienceTab.tsx:105 | every non-blank comma-separated piece is saved, trimmed |
| `ExperienceTab.ParseAddsNothing` | src/components/admin/ExperienceTab.tsx:105 | every saved skill is the trim of some piece |
| `ExperienceTab.SkillsArray` | src/components/admin/ExperienceTab.tsx:103-108 | a missing value gives []; an array passes through; a string is parsed into clean skills |
| `ExperienceTab.SkillsText` | src/components/admin/ExperienceTab.tsx:263 | no skills show as the empty text, typed text shows as typed, and a list of clean skills shows as a text that parses back to that list |
| `ExperienceTab.JoinedPieces` | src/components/admin/ExperienceTab.tsx:263 | the displayed join splits back into its elements, each after the first behind a blank |
| `ExperienceTab.TrimPieces` | src/components/admin/ExperienceTab.tsx:105 | trimming those pieces gives back the trimmed elements |
| `ExperienceTab.TrimBlankPiece` | src/components/admin/ExperienceTab.tsx:105 | a trimmed piece behind the blank that `join(", ")` adds trims back to itself |
| `ExperienceTab.ParseEmptyText` | src/components/admin/ExperienceTab.tsx:105 | an empty input saves no skills |
| `ExperienceTab.JoinParseRoundTrip` | src/components/admin/ExperienceTab.tsx:263 | showing a list of clean skills and saving it unedited gives the same list |
| `ExperienceTab.ReparseIsStable` | src/components/admin/ExperienceTab.tsx:105 | a saved list shown again and saved again does not change |
| `ExperienceTab.DataOf` | src/components/admin/ExperienceTab.tsx:110-116 | the record holds position, company, period and description from the draft, plus the parsed skills; it has no id or display order |
| `ExperienceTab.DraftOf` | src/components/admin/ExperienceTab.tsx:72-75 | the draft carries every field of the entry, and its skills read back as the entry's list (none when absent) |
| `ExperienceTab.WithoutExperience` | src/components/admin/ExperienceTab.tsx:92 | a row survives exactly when its id differs; survivors keep their multiplicity |
| `ExperienceTab.WithoutExperienceConcat` | src/components/admin/ExperienceTab.tsx:92 | deleting distributes over concatenation, so the remaining entries keep their order |
| `ExperienceTab.ExperienceEditor.constructor` | src/components/admin/ExperienceTab.tsx:34-40 | the editor starts with no rows and an empty draft |
| `ExperienceTab.ExperienceEditor.FetchExperiences` | src/components/admin/ExperienceTab.tsx:48-70 | a failed query changes nothing; otherwise the list is the rows, or [] for no data |
| `ExperienceTab.ExperienceEditor.Create` | src/components/admin/ExperienceTab.tsx:77-80 | the draft becomes empty |
| `ExperienceTab.ExperienceEditor.Edit` | src/components/admin/ExperienceTab.tsx:72-75 | the draft becomes the experience, its skills as an array |
| `ExperienceTab.ExperienceEditor.SetSkillsText` | src/components/admin/ExperienceTab.tsx:264 | typing stores the raw string and changes no other field |
| `ExperienceTab.ExperienceEditor.Delete` | src/components/admin/ExperienceTab.tsx:82-97 | only a confirmed, successful delete changes the list, to `WithoutExperience` |
| `ExperienceTab.ExperienceEditor.Save` | src/components/admin/ExperienceTab.tsx:99-131 | a draft with an id gives an update of that row; any other draft gives an insert. Both carry `DataOf` the draft |
| `ProfileTab.CurrentRoles` | src/components/admin/ProfileTab.tsx:91 | the roles before an add. An array gives itself. Missing, undefined and null give []. A string gives its characters, as spreading it does |
| `ProfileTab.WithRole` | src/components/admin/ProfileTab.tsx:91 | the old roles followed by the trimmed input; the length grows by exactly one |
| `ProfileTab.AddRoleDoesNotDeduplicate` | src/components/admin/ProfileTab.tsx:91 | adding a role that is present gives it one more copy |
| `ProfileTab.RemoveUndoesAdd` | src/components/admin/ProfileTab.tsx:91-98 | removing a role just added leaves the earlier roles minus every copy of it |
| `ProfileTab.WithoutRole` | src/components/admin/ProfileTab.tsx:97-100 | an array loses every copy of the role and shrinks by their number. A missing or null list becomes undefined. A string makes the handler throw |
| `ProfileTab.RemoveTakesDuplicatesTogether` | src/components/admin/ProfileTab.tsx:98 | two copies of a role go together |
| `ProfileTab.UpsertRecord` | src/components/admin/ProfileTab.tsx:72-76 | the keys are the profile's plus id and updated_at. `updated_at` is always `now`. `id` is the profile's own id when present, else the user id. Every other field is copied |
| `ProfileTab.UpsertKeepsUserId` | src/components/admin/ProfileTab.tsx:72-74 | a profile with no id, or with the user's id, is saved under the user's id |
| `ProfileTab.UpsertAgain` | src/components/admin/ProfileTab.tsx:72-76 | upserting a saved record again changes only its timestamp |
| `ProfileTab.AfterFetch` | src/components/admin/ProfileTab.tsx:44-62 | these leave the profile unchanged: signed out, an error other than `PGRST116`, no data (so a no-rows result leaves any profile as it was). Otherwise the profile becomes the row |
| `ProfileTab.ProfileEditor.constructor` | src/components/admin/ProfileTab.tsx:35-38 | the editor starts with an empty profile and role input |
| `ProfileTab.ProfileEditor.FetchProfile` | src/components/admin/ProfileTab.tsx:44-62 | the profile becomes `AfterFetch` of the results |
| `ProfileTab.ProfileEditor.SetField` | src/components/admin/ProfileTab.tsx:147 | one text field takes the typed value |
| `ProfileTab.ProfileEditor.SetRoleInput` | src/components/admin/ProfileTab.tsx:213 | the role input holds the typed text |
| `ProfileTab.ProfileEditor.AddRole` | src/components/admin/ProfileTab.tsx:88-95 | only Enter with a non-blank input acts. It sets `hero_roles` to `WithRole` and clears the input |
| `ProfileTab.ProfileEditor.RemoveRole` | src/components/admin/ProfileTab.tsx:97-100 | `hero_roles` becomes `WithoutRole`; when that throws, nothing changes |
| `ProfileTab.ProfileEditor.Save` | src/components/admin/ProfileTab.tsx:64-76 | no record without a signed-in user; otherwise the record is `UpsertRecord` |
| `PublicProjects.Advance` | src/components/Projects.tsx:162 | with images, the next index is (i+1) mod n and stays in range. Without images the index becomes NaN, and NaN stays NaN |
| `PublicProjects.AdvanceByIsRotation` | src/components/Projects.tsx:162 | within one round, k ticks move the slider k places, wrapping past the last image |
| `PublicProjects.WrapStep` | src/components/Projects.tsx:162 | one tick moves to the next image, or from the last back to the first |
| `PublicProjects.SliderCycles` | src/components/Projects.tsx:155-162 | after n ticks the slider is back at its start, and never earlier |
| `PublicProjects.Slider.constructor` | src/components/Projects.tsx:155-156 | the slider starts on image 0, not hovered |
| `PublicProjects.Slider.SetHovered` | src/components/Projects.tsx:170-171 | the mouse entering or leaving sets the hover flag |
| `PublicProjects.Slider.Tick` | src/components/Projects.tsx:158-165 | while hovered nothing moves; otherwise the index advances. With images it stays in range |
| `PublicProjects.Slider.SelectDot` | src/components/Projects.tsx:196 | clicking dot k shows image k |
| `PublicProjects.FrontendProjects` | src/components/Projects.tsx:293 | only projects of category `前端開發` |
| `PublicProjects.UxProjects` | src/components/Projects.tsx:294 | only projects of category `UX 設計` |
| `PublicProjects.SplitByCategory` | src/components/Projects.tsx:293-294 | a project is in a part exactly when its category is that part's; no project is in both; other categories are in neither |
| `PublicProjects.SplitSizes` | src/components/Projects.tsx:293-294 | the two parts together have as many projects as the listed categories |
| `PublicProjects.SplitKeepsOrder` | src/components/Projects.tsx:293-294 | both parts keep the list order, since splitting distributes over concatenation |
| `PublicProjects.CategoryLabel` | src/components/Projects.tsx:372 | the chip reads `前端` exactly for `前端開發`, and `UX` for every other category |
| `PublicProjects.ProjectNumber` | src/components/Projects.tsx:367 | every number has at least two digits; from 10 up it is the plain decimal form, below 10 a `0` followed by the digit |
| `PublicProjects.ProjectNumberValue` | src/components/Projects.tsx:411 | a displayed number reads back as the number |
| `PublicProjects.Numbers` | src/components/Projects.tsx:411 | consecutive numbers after a start |
| `PublicProjects.Numbering` | src/components/Projects.tsx:367-411 | one number per project of the two parts |
| `PublicProjects.NumberingRunsFromOne` | src/components/Projects.tsx:367-411 | the section is numbered 1, 2, ... with no gaps or repeats; the UX numbers continue after the front-end ones |

## Left out

- Backend I/O is not modelled: table reads and writes, `auth.getUser`, storage uploads, `getPublicUrl` and sign-in. Each becomes an outcome parameter that gates the local update. Refetching after a save is not modelled either.
- Random ids and file names (`Math.random`) and `new Date().toISOString()` are parameters (`freshId`, `now`), not generated values.
- The rank writes that `handleDragEnd` starts in a background loop are modelled only by their effect when they land one after another (`ApplyRanks`). Their asynchrony and error handling are not modelled.
- `ProjectsTab.ProjectsEditor.DragEnd` requires both ids to be in the list. The source calls `arrayMove` with `findIndex`'s -1 otherwise.
- `ProjectsTab.FindIndex` is modelled only for an id that is present. The -1 result is not modelled.
- `Text.Lower` maps only the ASCII letters. Unicode case mapping is not modelled, so the search's case-insensitivity is proved for ASCII only.
- Loading and saving flags, alerts, toasts, modals and console logging are not modelled.
- The JSX rendering and styling, and the per-project chip colour, are not modelled.
- DOM measurement, the scroll-spy, `setInterval`/`setTimeout` timing and the animations of the public section are not modelled. The slider is modelled as one tick per timer firing.
- `Slider` takes the number of images as fixed. A change of the images prop while mounted is not modelled.
- A JSON profile field holding a number or boolean is not modelled. `ProfileTab.Value` covers undefined, null, strings and string arrays only. Dropping `undefined` fields when the record is serialised is not modelled.
- The skills tab's "Save Changes" backend sequence is not modelled (profile update, delete all, insert). Only the rows it inserts are modelled.
- The text inputs' `onValueChange` for the other draft fields of the projects and experience tabs are not modelled. Only their effect as plain field copies on save is.
- `ProfileTab.CurrentRoles`: a `hero_roles` value that is a string is one the tab cannot render, because the roles list calls `profile.hero_roles?.map` (src/components/admin/ProfileTab.tsx:219) and a string has no `map`. The model still gives the add and remove handlers' behaviour on it.
- `SkillsTab.SkillsEditor.SaveCategoryEdit`: the source throws on a stale edit index, because `categories[i]` is undefined. The model treats that case as a no-op.
- `Hero.tsx`, `LoadingScreen.tsx`, `SocialsTab.tsx`, `Contact.tsx`, `Footer.tsx`, `About.tsx`, `Experience.tsx` and `Navbar.tsx` are not part of this model. Neither are the dashboard and login pages, the error pages, `providers.tsx`, `supabase.ts` and `next.config.js`. They are UI shells, CRUD plumbing or animation.

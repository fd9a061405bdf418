# posh-font-voter: a verified model of the client-side bookkeeping

posh-font-voter is a small web application. Visitors vote fonts up or down.
An administrator tags fonts. An "event" page previews a flyer whose font,
background, aspect ratio and padding come from the URL's query string. The
data lives in a hosted database; this model covers the bookkeeping the
browser does around it:

- `FontVoting` (`font_voting.dfy`, for `app/page.tsx`) holds the voting page.
  It covers each font's `upvotes`/`downvotes`, the current user's ledger
  (font id to `Up`/`Down`), the `voteFont` and `undoVote` handlers, hydration
  of the ledger from the user's vote rows, the stylesheet `loaded` flag, and
  the display order by descending net score.
- `FontAdmin` (`font_admin.dfy`, for `app/admin/page.tsx`) holds the admin
  console. It covers the password gate and the grouping of `font_tags` rows
  into a per-font list of tag ids. It resolves those ids to tag names,
  toggles tags in the pending selection, and saves a selection by deleting
  and then inserting rows. It also creates tags from trimmed names. The
  `font_tags` table is a class holding an ordered list of rows.
- `Event` (`event_view.dfy`, for `components/event/EventView.tsx`) holds the
  theming view. It covers `URLSearchParams` as an ordered list of name/value
  pairs (`get` and `set`), the effect that copies query parameters into the
  four settings, `handleItemChange`, the default settings, the
  `gradientOptions` table and the choice of flyer image by ratio.
- `Base` (`base.dfy`) defines `Option`.

Every call to the database is an oracle: a handler takes the outcome of its
remote step as a parameter. That is a `bool` for a procedure call, a delete
or a plain insert, and an `Option` holding the rows for a read or for an
insert that returns its rows (the tag insert with `.select()`). Each handler runs
as one atomic step. `VotingPage`, `AdminPage` and `EventView` have the
state fields of their React components. `FontTagsTable` stands for the
remote `font_tags` table. The methods say the whole new state in terms of
pure functions, and the lemmas prove what the source promises about those
functions.

- app/page.tsx has no upvote quota, no enable/disable flag and no tag
  filter, so none is modelled.
- Local state changes only after the remote step succeeds
  (app/page.tsx:130-150, 184-205), and the model does the same.

## Model

| member | source | states |
|---|---|---|
| `FontVoting.Cast` | app/page.tsx:135-141 | a confirmed vote raises exactly the counter of its kind by one (net score +1 for up, -1 for down); the other counter and every other field stay |
| `FontVoting.Remove` | app/page.tsx:189-195 | a confirmed removal lowers the counter of its kind by one, floored at 0 (`Math.max(0, n - 1)`), and leaves the other counter and every other field alone |
| `FontVoting.ApplyCast` | app/page.tsx:133-144 | after a confirmed vote, each font with the voted id gets `Cast`, every other font is unchanged, and the list keeps its length |
| `FontVoting.ApplyRemove` | app/page.tsx:187-198 | after a confirmed undo, each font with that id gets `Remove`, every other font is unchanged |
| `FontVoting.RemoveUndoesCast` | app/page.tsx:133-198 | on one font with a non-negative counter, removing a vote undoes casting it |
| `FontVoting.CastThenRemoveRestores` | app/page.tsx:133-198 | round trip: from non-negative counters, vote then undo of the same kind gives back the original font list |
| `FontVoting.MarkLoaded` | app/page.tsx:93 | the stylesheet `onload` sets `loaded` on the fonts with that id only; every other field and font is unchanged |
| `FontVoting.Unloaded` | app/page.tsx:70-73 | fetched rows enter the page with `loaded` false and otherwise as fetched |
| `FontVoting.LedgerOfKeys` | app/page.tsx:78-81 | a font has a ledger entry exactly when some vote row names it |
| `FontVoting.LedgerOfLastRowWins` | app/page.tsx:78-81 | the last row for a font decides its entry, so a later row overwrites an earlier one |
| `FontVoting.BuildLedger` | app/page.tsx:78-83 | the `forEach` loop produces exactly the ledger `LedgerOf(rows)` |
| `FontVoting.SortByNet` | app/page.tsx:224 | the display order is a permutation of the fonts with non-increasing net score |
| `FontVoting.SortByNetStable` | app/page.tsx:224 | among fonts with equal net score the display order is the fetched order (the sort is stable) |
| `FontVoting.VotingPage.constructor` | app/page.tsx:29-32 | the page starts with no fonts, an empty ledger, no user id, loading |
| `FontVoting.VotingPage.Initialize` | app/page.tsx:38-43 | the user id is the stored one, or the generated one when none (or an empty one) is stored |
| `FontVoting.VotingPage.FetchFontsAndVotes` | app/page.tsx:53-106 | when both reads succeed, fonts become the unloaded rows and the ledger `LedgerOf(votes)`; when either fails, both stay; `loading` ends false |
| `FontVoting.VotingPage.OnStylesheetLoad` | app/page.tsx:92-94 | fonts become `MarkLoaded(fonts, id)`; the ledger is untouched |
| `FontVoting.VotingPage.VoteFont` | app/page.tsx:109-166 | no user id or an existing entry means no remote call and no change; a confirmed `cast_vote` gives `ApplyCast` and adds `fontId -> voteType` keeping all other entries; a failed one changes nothing |
| `FontVoting.VotingPage.UndoVote` | app/page.tsx:169-221 | no entry means no remote call and no change; a confirmed `remove_vote` applies `ApplyRemove` with the recorded kind and deletes only that entry; a failed one changes nothing |
| `FontVoting.VotingPage.SortedFonts` | app/page.tsx:224 | the rendered order is a ranked permutation of `fonts`, computed on a copy, so `fonts` is not reordered |
| `FontVoting.VotingPage.VoteThenUndo` | app/page.tsx:109-221 | from no entry and non-negative counters, a confirmed vote then a confirmed undo restores both `fonts` and `userVotes` |
| `FontAdmin.TagIdsOfNonEmpty` | app/admin/page.tsx:112-118 | a font has grouped tag ids exactly when some `font_tags` row names it |
| `FontAdmin.GroupFontTags` | app/admin/page.tsx:112-118 | the grouping loop makes a font id a key exactly when it has rows, and its list is the tag ids of its rows in row order |
| `FontAdmin.FindTag` | app/admin/page.tsx:128 | `find` fails exactly when no tag has the id, and otherwise returns a tag of the list with that id |
| `FontAdmin.FindTagIsFirst` | app/admin/page.tsx:128 | the tag `find` returns is the first one with that id |
| `FontAdmin.ResolveNames` | app/admin/page.tsx:124-131 | the resolved names are never more than the ids, never empty, and each is the name of one of the ids |
| `FontAdmin.ResolveNamesAppend` | app/admin/page.tsx:124-131 | resolution works id by id in order: resolving a concatenation gives the concatenated names |
| `FontAdmin.ResolveNamesAllKnown` | app/admin/page.tsx:124-131 | only unknown or unnamed ids are dropped: when every id has a named tag, the names match the ids one for one |
| `FontAdmin.ProcessFonts` | app/admin/page.tsx:104-132 | each fetched font gets `loaded` false and the resolved names of its grouped ids, everything else as fetched |
| `FontAdmin.Without` | app/admin/page.tsx:198 | the filter removes every occurrence of the tag, keeps every other id, and returns the list unchanged when the tag is absent |
| `FontAdmin.WithoutCounts` | app/admin/page.tsx:198 | the filter drops every copy of the tag and keeps every other id with its number of copies (`multiset(r) == multiset(s)[x := 0]`) |
| `FontAdmin.WithoutConcat` | app/admin/page.tsx:198 | the filter works element by element in order: filtering a concatenation gives the filtered parts concatenated, so kept ids keep their order |
| `FontAdmin.Toggled` | app/admin/page.tsx:194-206 | a present tag is removed (all occurrences), an absent one appended at the end; the tag's membership flips, others keep theirs, and other fonts' lists do not change |
| `FontAdmin.ToggleTwice` | app/admin/page.tsx:194-206 | toggling the same tag twice restores the font's set of tags, and its exact list when the tag was absent; other fonts untouched |
| `FontAdmin.WithoutFont` | app/admin/page.tsx:215-218 | the delete keeps only rows of other fonts, taken from the table |
| `FontAdmin.WithoutFontRows` | app/admin/page.tsx:215-218 | after the delete the font has no rows, and every other font keeps exactly its rows in order |
| `FontAdmin.SelectionRows` | app/admin/page.tsx:223-226 | one row `(fontId, tagId)` per selected tag, in selection order |
| `FontAdmin.SaveReplacesFontRows` | app/admin/page.tsx:212-232 | after delete and insert both succeed, the font's rows are exactly the selection, in order, and every other font's rows are as before |
| `FontAdmin.FontTagsTable.DeleteFont` | app/admin/page.tsx:215-218 | a successful delete leaves `WithoutFont(rows, fontId)`, a failed one the table as it was |
| `FontAdmin.FontTagsTable.Insert` | app/admin/page.tsx:228-230 | a successful insert appends the new rows, a failed one changes nothing |
| `FontAdmin.ReplaceTags` | app/admin/page.tsx:235-252 | only the fonts with the saved id get the new tag names; every other field and font is unchanged |
| `FontAdmin.Trim` | app/admin/page.tsx:166 | `trim()` returns the slice of the name that starts after its leading white space, with only JavaScript white space cut on either side and none left at either end |
| `FontAdmin.TrimEmptyIffBlank` | app/admin/page.tsx:166 | the trimmed name is empty exactly when the name is empty or all white space |
| `FontAdmin.TrimIdempotent` | app/admin/page.tsx:171 | trimming the sent name again changes nothing |
| `FontAdmin.AdminPage.constructor` | app/admin/page.tsx:41-52 | the console starts unauthenticated, with empty lists, no pending selection and no font being edited |
| `FontAdmin.AdminPage.EnterPassword` | app/admin/page.tsx:297 | typing sets `password` and nothing else |
| `FontAdmin.AdminPage.Authenticate` | app/admin/page.tsx:55-69 | the console opens and fetches data exactly when the password is `"admin123"`; otherwise nothing changes |
| `FontAdmin.AdminPage.RestoreSession` | app/admin/page.tsx:72-78 | a stored session flag `"true"` opens the console and triggers a fetch |
| `FontAdmin.AdminPage.FetchData` | app/admin/page.tsx:81-162 | when all three reads succeed, the selection is grouped from the rows, fonts carry their resolved names and tags become the catalog; on any failure these stay; `loading` ends false |
| `FontAdmin.AdminPage.EnterNewTag` | app/admin/page.tsx:323 | typing sets `newTag` and nothing else |
| `FontAdmin.AdminPage.AddTag` | app/admin/page.tsx:165-191 | a blank name sends nothing; otherwise the trimmed name is inserted, and when the insert returns a row, that row is appended to `tags` and `newTag` is cleared; otherwise nothing changes |
| `FontAdmin.AdminPage.EditTags` | app/admin/page.tsx:429 | the "Edit Tags" button makes that font the one being edited |
| `FontAdmin.AdminPage.ToggleTag` | app/admin/page.tsx:194-206 | the pending selection becomes `Toggled(selection, fontId, tagId)`; nothing else changes |
| `FontAdmin.AdminPage.SaveFontTags` | app/admin/page.tsx:209-267 | the insert is sent exactly when the delete succeeded and the selection is non-empty; table rows and local state for each outcome, including delete-ok/insert-failed leaving the font with no rows and `fonts`/`editingFontId` unchanged; on success only that font's `tags` change and `editingFontId` becomes null |
| `Event.Get` | components/event/EventView.tsx:188-195 | `get` finds nothing exactly when no pair has the name, and otherwise a value paired with that name |
| `Event.GetIsFirst` | components/event/EventView.tsx:188-195 | the value `get` returns is that of the first pair with the name: no earlier pair has it |
| `Event.SetParam` | components/event/EventView.tsx:198-206 | after `set`, the name has the one value written, every other name reads as before, and the other pairs keep their order; the written pair takes the place of the first old pair with that name (later ones are dropped), or is appended when there was none |
| `Event.ReplaceFirstInPlace` | components/event/EventView.tsx:198-206 | replacing puts the new pair at the index of the first old pair with the name, keeps everything before it, and drops only the later pairs with that name |
| `Event.ParseRatio` | components/event/EventView.tsx:399-401 | the three menu values stand for the three ratios, and nothing else does |
| `Event.Synced` | components/event/EventView.tsx:186-196 | a setting changes only when its parameter is present and non-empty; then font and gradient take it, padding becomes `== "true"`, the ratio takes the menu ratio; an absent parameter keeps its setting |
| `Event.SyncedIdempotent` | components/event/EventView.tsx:186-196 | running the effect twice on the same query string is running it once |
| `Event.FontRoundTrip` | components/event/EventView.tsx:186-209 | a non-empty font name written through `handleItemChange` reads back as `selectedFont` |
| `Event.GradientRoundTrip` | components/event/EventView.tsx:186-209 | a non-empty gradient id written through `handleItemChange` reads back as `selectedGradient` |
| `Event.RatioRoundTrip` | components/event/EventView.tsx:389-401 | a ratio chosen in the menu reads back as that ratio |
| `Event.PaddingRoundTrip` | components/event/EventView.tsx:412-417 | writing `b.toString()` for the padding switch reads back as `b` |
| `Event.ItemChangeKeepsOtherSettings` | components/event/EventView.tsx:186-209 | from settings in step with the URL, writing one parameter changes at most the setting of that name |
| `Event.GradientOptionsKeyedById` | components/event/EventView.tsx:64-149 | every key of `gradientOptions` equals its entry's id, so each option is filed under its own id, and the default gradient is a key |
| `Event.SyncedGradientListed` | components/event/EventView.tsx:186-224 | the gradient stays a key of `gradientOptions` (the unchecked lookup stays defined) as long as the URL names only listed gradients |
| `Event.UnlistedGradientFromLink` | components/event/EventView.tsx:186-224 | a link with an unlisted gradient id makes `selectedGradient` a non-key |
| `Event.ExactlyOneFlyerVisible` | components/event/EventView.tsx:240-266 | at each of the three ratios exactly one flyer image is visible, the one made for that ratio |
| `Event.EventView.constructor` | components/event/EventView.tsx:144-149 | the initial settings are font `""`, ratio 4:5, no padding, gradient `"posh-theme"` |
| `Event.EventView.SyncFromSearchParams` | components/event/EventView.tsx:186-196 | the effect's four conditional writes give `Synced(old settings, searchParams)`; the URL is unchanged |
| `Event.EventView.HandleItemChange` | components/event/EventView.tsx:198-209 | the URL becomes `SetParam(url, name, value)` and the settings are then synced from it |
| `Event.EventView.Gradient` | components/event/EventView.tsx:221-224 | the rendered option is an entry of `gradientOptions` whose id is `selectedGradient` (with the table keyed by id, exactly that entry), defined only while that id is a key |
| `Event.EventView.ShownFlyers` | components/event/EventView.tsx:240-266 | exactly one flyer image is shown, the one made for the current ratio |

## Left out

- The database (`cast_vote`, `remove_vote`, table reads, inserts and deletes) is an oracle. The procedures' semantics are defined outside this repository. Each request either happens completely or not at all.
- `localStorage` and `uuidv4` are left out. The stored and generated user ids are parameters of `Initialize`, and the stored session flag is a parameter of `RestoreSession`. The writes back to storage are not modelled: `localStorage.setItem` in `initializeApp` (app/page.tsx:41) and in `authenticate` (app/admin/page.tsx:60).
- Creating `<link>` elements is left out. The `onload` callback is the `OnStylesheetLoad` event.
- The admin page's own stylesheet `onload` (app/admin/page.tsx:144-150) is the same update as `FontVoting.MarkLoaded`, and it is not modelled a second time.
- Toasts, console logging, all JSX rendering, the font-preview dialog (`previewFont`, `closeFontPreview`) and the loading spinner are left out.
- The event view's font fetch (components/event/EventView.tsx:151-183) only fills the font menu, and it is left out.
- Serialising the query string (`toString`, percent-encoding) and parsing it back after `router.push` are treated as the identity. The next `searchParams` is the list that `set` produced.
- Floating point is left out. This covers `Number(searchParams.get("aspectRatio"))`, the `===` checks against `1 / 1`, `4 / 5` and `9 / 16`, and the `maxWidth` percentage. Vote counters are unbounded integers, not doubles.
- `Event.Synced`: a non-empty `aspectRatio` value that is not exactly one of the menu strings `"0.5625"`, `"0.8"`, `"1"` leaves the model's ratio unchanged. The source stores `Number(value)` instead. Other spellings of the menu numbers (`"0.80"`, `".8"`, `"1.0"`, `" 1"`, `"1e0"`) therefore pick a menu ratio in the source, and one flyer shows, but the model ignores them. Only a value whose `Number` is not 9/16, 4/5 or 1 leaves no flyer image visible in the source.
- `FontVoting.VotingPage.FetchFontsAndVotes`: the code casts the fetched `vote_type` to `"up" | "down"` without checking it, and the model takes that cast as given.
- Async handlers running interleaved are left out. Each handler is one atomic step.
- The admin password is a one-line gate (`Authenticate`). It is not a security mechanism.

# Aldex album library: a Dafny model

Aldex is a personal album library. Its backend is a set of Convex functions:

- a shared catalog table `albums` holds one row per album;
- a per-user table `user_albums` links a user to a catalog row and holds that user's own fields (acquisition, progress, archived, rating, links, notes);
- `create` finds an existing catalog row (by MusicBrainz id, then artist, then title) or inserts one, then adds the user's link;
- a scheduled action, `storeCoverArt`, downloads cover images into file storage.

The React client filters and selects albums, edits many of them at once, and has small numeric steppers. It builds RateYourMusic links, ranks MusicBrainz search results, and validates the album form.

This project models that core in Dafny and proves properties of the model.

- **albums.ts** becomes the class `Albums.Database`. The two tables are `map`s from ids to rows. Each Convex mutation is one method, and a thrown error leaves both tables as they were. Ids are a tagged union `DocId = AlbumRef | UserAlbumRef`, so `normalizeId("user_albums", id)` is a tag test. Ids are handed out in creation order, which is the order an index lookup meets rows with equal keys.
- **images.ts** becomes the methods of module `Images` over that database and a `BlobStore` class with a call counter. The outcome of `fetch` is a function parameter.
- **The client hook** `src/hooks/use-album-library.ts` becomes class `Library.LibraryView`, with the React state as its fields. `src/components/album-library.tsx` repeats the hook's filter, selection and column logic line for line, so one model covers both; that component's `getTitle` and column stepper are modelled as well.
- **The remaining client files** become modules of pure functions with lemmas. The one exception is the in-place sort of the search results, which is an array method.

The two modules `Text` and `NumberInput` hold the JavaScript string built-ins and the `onChange` protocol that several files share.

I/O is replaced by parameters:

- the caller's identity is an `Option<string>`;
- `Date.now()` and the current year are integers;
- the HTTP requests (`fetch` for a cover, the MusicBrainz search, the `HEAD` probe) are functions from URL to outcome;
- `scheduler.runAfter(0, …)` appends a job to the field `scheduled`, which a later explicit call runs.

## Model

| member | source | states |
|---|---|---|
| Albums.FirstMatch | convex/albums.ts:136-171 | the index lookup followed by `.first()`/`.find(...)`: the oldest album matching the lookup, and no older one matches; `None` only when no album in range matches |
| Albums.ResolveBy | convex/albums.ts:134-178 | first match wins: the result is what the first lookup that finds anything finds; `None` means no lookup matches any album |
| Albums.ResolveUnfolds | convex/albums.ts:134-178 | the resolution order of `create`: the MusicBrainz id hit if the id is truthy, else exact trimmed artist with case-insensitive title, else exact trimmed title with case-insensitive artist |
| Albums.ResolveByPair | convex/albums.ts:148-178 | with two lookups, the second is consulted only when the first finds nothing |
| Albums.ResolveByMusicBrainzId | convex/albums.ts:134-146 | a truthy MusicBrainz id carried by some album always decides, and picks the oldest album with that id |
| Albums.ResolveIgnoresTitleCase | convex/albums.ts:150-159 | without a MusicBrainz id, an album with the exact trimmed artist and a title equal up to case is found, or an older such album |
| Albums.ResolveNeedsOneExactField | convex/albums.ts:148-178 | without a MusicBrainz id, whatever is found agrees exactly with the trimmed artist or with the trimmed title |
| Albums.BothFieldsRecasedFindsNothing | convex/albums.ts:150-172 | an album given with both title and artist recased does not find the stored row, so `create` inserts a duplicate catalog row |
| Albums.ResolveFindsInserted | convex/albums.ts:180-191 | creating the same album again resolves to the row the first `create` inserted, so the catalog does not grow twice |
| Albums.InsertAlbumKeepsValid | convex/albums.ts:181-191 | inserting a catalog row keeps every table invariant, and no link refers to the new row yet |
| Albums.InsertLinkKeepsValid | convex/albums.ts:194-216 | inserting a link for an album the user does not hold keeps every link pointing at an existing album and keeps (userId, albumId) unique |
| Albums.RewriteLinkKeepsValid | convex/albums.ts:451 | rewriting a link's user fields keeps the invariants |
| Albums.ApplyUpdate | convex/albums.ts:366-377 | `update`'s patch never changes the owner, the album reference or `addedAt` |
| Albums.ApplyUpdateIgnoresGlobalFields | convex/albums.ts:343-375 | the title, artist, year, cover, MusicBrainz and genre arguments of `update` never reach the row |
| Albums.ApplyUpdateIdempotent | convex/albums.ts:368-377 | sending the same update twice equals sending it once |
| Albums.ApplyUpdateEmpty | convex/albums.ts:368-377 | an update that defines no user field leaves the row unchanged |
| Albums.ApplyPatch | convex/albums.ts:451 | the batch patch keeps the owner and the album reference |
| Albums.ResolveTarget | convex/albums.ts:253-260 | a link id naming an existing link maps to that link's catalog id; a catalog id is kept; a result that is still a link id names no link |
| Albums.CoverStatus | convex/albums.ts:246-272 | `hasCover` holds iff the resolved catalog row exists and has a `coverImageId` or a truthy `coverUrl`; false for a missing album or a dangling link id |
| Albums.CoverPatched | convex/albums.ts:285-318 | `updateCoverImageId` changes only the two cover fields of the resolved catalog row, and changes nothing when it aborts or the row is missing |
| Albums.PatchedAlbumHasCover | convex/albums.ts:315-318 | after a successful cover patch the status check reports a cover |
| Albums.Database.JoinFrom | convex/albums.ts:35-74 | the join yields exactly the selected links from a given id up, in creation order, each joined with its catalog row |
| Albums.Database.Get | convex/albums.ts:12-76 | no identity gives `[]`; otherwise exactly the caller's links that pass the index filter and whose album exists, in creation order, each row's `_id` being the link id and carrying both rows |
| Albums.Database.GetById | convex/albums.ts:79-95 | the join for one link id, `null` iff the link or its album is missing |
| Albums.Database.CheckOwnership | convex/albums.ts:410-414 | true iff every id names an existing link of the user |
| Albums.Database.Create | convex/albums.ts:120-243 | no identity throws with nothing changed; an existing link to the resolved album throws with nothing changed; otherwise the catalog grows by the trimmed album only when nothing resolved, exactly one link (caller, target, now) is added, and a cover job for the catalog id is queued iff coverUrl is truthy, coverImageId absent and the album new; the tables stay valid |
| Albums.Database.CreateFor | convex/albums.ts:127-241 | `create` past the identity check, with the same outcomes |
| Albums.Database.FindGlobalAlbum | convex/albums.ts:131-178 | the step-by-step search computes `Resolve` |
| Albums.Database.InsertAlbum | convex/albums.ts:181-191 | a fresh catalog id; only the catalog changes |
| Albums.Database.InsertLink | convex/albums.ts:206-216 | a fresh link id; only the link table changes; uniqueness is kept |
| Albums.Database.ScheduleCover | convex/albums.ts:222-239 | the job is queued iff the three download conditions hold, carrying the catalog id and the cover URL |
| Albums.Database.UpdateCoverImageId | convex/albums.ts:275-320 | the outcome (patched, aborted, patch failure) and the new catalog are those of `CoverPatchOutcome`/`CoverPatched`; the link table is untouched |
| Albums.Database.Update | convex/albums.ts:352-378 | no identity, or a missing or foreign link, throws and changes nothing; otherwise only that link changes, to `ApplyUpdate` of it; the catalog is never touched |
| Albums.Database.Remove | convex/albums.ts:384-397 | the same guards; otherwise exactly that link is deleted and the catalog is kept |
| Albums.Database.BatchDelete | convex/albums.ts:403-417 | all or nothing: one missing or foreign id changes nothing; otherwise exactly the listed links are deleted; the catalog is never touched |
| Albums.Database.BatchUpdate | convex/albums.ts:438-452 | all or nothing: one missing or foreign id changes nothing; otherwise exactly the listed links are patched and every other row is kept |
| Albums.Database.PatchLinks | convex/albums.ts:451 | the loop of patches leaves exactly the listed links patched, whatever the order or repetition of ids |
| Images.BlobStore.Store | convex/images.ts:54-55 | a fresh id, not used before; no stored blob is touched |
| Images.BlobStore.GetUrl | convex/images.ts:6-11 | a URL iff the blob is stored |
| Images.SourceUrl | convex/images.ts:32-43 | the given cover URL when truthy, else the Cover Art Archive address of a truthy MusicBrainz id, else none |
| Images.FetchAndAttach | convex/images.ts:32-64 | no URL or a failed fetch leaves store and tables unchanged; a successful fetch stores exactly one blob and patches the resolved album with that id and the URL fetched |
| Images.StoreCoverArt | convex/images.ts:13-66 | a reported cover returns before any fetch, store or patch; otherwise the effects of `FetchAndAttach` |
| Images.BackfillTwice | convex/images.ts:27-30 | after a run that stored and patched, a second run returns at the status check: one blob over both runs |
| Images.CreateThenBackfill | convex/albums.ts:181-239 | `create` followed by the download it schedules, as written: the download reports an existing cover and the store is unchanged, for every fetch outcome |
| Images.ScheduledAlbumReportsCover | convex/albums.ts:187 | the row `create` inserts for a scheduled job already carries the cover URL, so the status check reports a cover although no image is stored |
| Images.StoredCoverStatus | convex/images.ts:22-30 | the corrected check: true iff the resolved catalog row has a stored image; it implies the original check |
| Images.StoreCoverArtFixed | convex/images.ts:13-66 | `storeCoverArt` with the corrected check: skip only when an image is stored |
| Images.PatchedAlbumHasStoredImage | convex/albums.ts:315-318 | a successful patch makes the corrected check report an image, so the fixed backfill is idempotent too |
| Images.CreateThenBackfillFixed | convex/albums.ts:222-239 | with the corrected check, a successful fetch after `create` stores one blob and the new catalog row gets its id |
| CoverArt.CoverArtUrl | convex/images.ts:37 | the address is the fixed prefix, the id, then `/front` |
| CoverArt.CoverArtUrlInjective | src/lib/musicbrainz.ts:85 | the address determines the MusicBrainz id |
| MusicBrainz.SameTemplateAsBackfill | src/lib/musicbrainz.ts:85 | the client's probe address is the one the server backfill downloads for a MusicBrainz id |
| MusicBrainz.GetAlbumCover | src/lib/musicbrainz.ts:78-97 | the final URL iff the `HEAD` probe of the archive address succeeds, else `null` |
| MusicBrainz.TypePriority | src/lib/musicbrainz.ts:57-63 | Album 3, EP 2, Single 1, any other type 0 |
| MusicBrainz.CompareIsLexicographic | src/lib/musicbrainz.ts:50-71 | `a` goes first iff it is greater in (score, type priority, count) compared lexicographically, a missing count being 0; the comparator returns 0, and the two tie, exactly when all three agree |
| MusicBrainz.CompareAntisymmetric | src/lib/musicbrainz.ts:50-71 | swapping the arguments flips the sign |
| MusicBrainz.CompareTransitive | src/lib/musicbrainz.ts:50-71 | the comparator is transitive |
| MusicBrainz.CompareTotalPreorder | src/lib/musicbrainz.ts:50-71 | the comparator is a total preorder, which a sort needs |
| MusicBrainz.TypeOrderAtEqualScore | src/lib/musicbrainz.ts:56-67 | at equal score Album beats EP, EP beats Single, Single beats other types |
| MusicBrainz.SortedScoresDescend | src/lib/musicbrainz.ts:51-54 | in a sorted result a higher score never comes after a lower one |
| MusicBrainz.SortResults | src/lib/musicbrainz.ts:50-71 | the in-place sort leaves the array sorted by the comparator, a permutation of what it held, and stable: release groups the comparator ties keep their order |
| MusicBrainz.SwapKeepsTieOrder | src/lib/musicbrainz.ts:50 | exchanging two neighbours in the wrong order keeps the order of every class of tied elements |
| MusicBrainz.SortBy | src/lib/musicbrainz.ts:50 | sorting by any total preorder gives a sorted permutation that keeps tied elements in their order |
| MusicBrainz.SearchAlbums | src/lib/musicbrainz.ts:26-76 | an empty query returns `[]` with no request; a failed or throwing request returns `[]`; otherwise the ranked permutation of the response's release groups, ties in response order, or `[]` when the field is missing |
| Library.EffectiveProgress | src/hooks/use-album-library.ts:82-84 | the stored progress, else `backlog` exactly for library albums, else none |
| Library.FilterRows | src/hooks/use-album-library.ts:56-90 | an order-preserving subsequence holding exactly the rows that pass search, acquisition and progress filters |
| Library.FilteredAlbums | src/hooks/use-album-library.ts:53-91 | nothing while loading; otherwise exactly the rows kept, in their order |
| Library.SearchIgnoresQueryCase | src/hooks/use-album-library.ts:58-63 | the search matches the same rows for a query and its lower-cased form |
| Library.WishlistWithoutProgressNeverMatches | src/hooks/use-album-library.ts:81-87 | a wishlist row without progress fails every specific progress filter |
| Library.SubsequenceKeepsIncreasing | src/components/album-library.tsx:98-135 | filtering keeps rows in order, so ids increasing in `get`'s result still increase |
| Library.IdsOfSize | src/hooks/use-album-library.ts:221-227 | rows listed in increasing id order select as many ids as rows |
| Library.AddIds | src/hooks/use-album-library.ts:112-113 | the `forEach` over the range adds exactly the range's ids |
| Library.IndexOf | src/hooks/use-album-library.ts:103-106 | `findIndex`: the first position holding the id, or -1 iff none does |
| Library.ShiftRangeCovers | src/hooks/use-album-library.ts:102-114 | both ends and every shown row between them are in the shift range |
| Library.ShiftRangeWithinShown | src/hooks/use-album-library.ts:108-114 | a shift range holds only shown ids, and is empty when either id is not shown |
| Library.ShiftSelect | src/hooks/use-album-library.ts:102-114 | the shift branch adds exactly the shift range and removes nothing |
| Library.ColumnsForWidth | src/hooks/use-album-library.ts:22-31 | the width thresholds 640/768/1024/1280 give 2 to 6 columns |
| Library.ColumnsMonotone | src/components/album-library.tsx:56-71 | a wider window never gets fewer columns |
| Library.LibraryView.GetTitle | src/components/album-library.tsx:144-153 | "All Albums" iff no search and both filters "all", otherwise "Albums (n)" with the number of rows shown |
| Library.LibraryView.ToggleSelection | src/hooks/use-album-library.ts:99-125 | a shift-click with another anchor adds the range and keeps the anchor; a plain click flips exactly that id and makes it the anchor; the filters, mode and columns are kept |
| Library.LibraryView.SelectAll | src/hooks/use-album-library.ts:221-227 | equal sizes clear the selection, otherwise exactly the shown ids are selected |
| Library.LibraryView.SelectAllTwice | src/components/album-library.tsx:277-283 | a second press after a first that selected everything clears the selection |
| Library.LibraryView.ToggleBatchMode | src/hooks/use-album-library.ts:215-219 | the mode flips, the selection and the anchor are cleared |
| Library.LibraryView.OnWidth | src/hooks/use-album-library.ts:20-35 | a falsy width changes nothing, any other width sets `ColumnsForWidth`; no other field changes |
| Library.LibraryView.DecreaseColumns | src/components/album-library.tsx:463 | `max(2, n - 1)`: stays in [2, 10] and moves by at most one; no other field changes |
| Library.LibraryView.IncreaseColumns | src/components/album-library.tsx:482 | `min(10, n + 1)`: stays in [2, 10] and moves by at most one; no other field changes |
| Library.LibraryView.FinishBatch | src/hooks/use-album-library.ts:153-159 | success leaves batch mode with nothing selected; an error keeps the state; the anchor, the columns, the rows and the filters never change |
| Library.LibraryView.BatchDelete | src/hooks/use-album-library.ts:140-160 | a call iff the selection is non-empty and the user confirms, carrying exactly the selection; after success nothing is selected and batch mode is off; without a call or after an error the mode and selection are kept; nothing else changes |
| Library.LibraryView.BatchUpdate | src/components/album-library.tsx:221-269 | a call iff the selection is non-empty, carrying the selection and the patch; after success nothing is selected and batch mode is off; without a call or after an error the mode and selection are kept; nothing else changes |
| Library.LibraryView.BatchArchive | src/hooks/use-album-library.ts:162-177 | archives exactly the selection, no call without one; after success batch mode is off and nothing is selected, otherwise both are kept; nothing else changes |
| Library.LibraryView.BatchStatusChange | src/hooks/use-album-library.ts:179-194 | sets the acquisition of exactly the selection, no call without one; after success batch mode is off and nothing is selected, otherwise both are kept; nothing else changes |
| Library.LibraryView.BatchProgressChange | src/hooks/use-album-library.ts:196-213 | sets the progress of exactly the selection, no call without one; after success batch mode is off and nothing is selected, otherwise both are kept; nothing else changes |
| BatchActions.DefaultStatus | src/components/batch-actions.tsx:51-55 | the acquisition shared by a non-empty selection, undefined when empty or mixed |
| BatchActions.DefaultProgress | src/components/batch-actions.tsx:57-61 | whenever a non-empty selection shares one progress (possibly absent) it is that progress; undefined when empty or mixed |
| BatchActions.DefaultArchived | src/components/batch-actions.tsx:63-71 | true iff all are archived, false iff none is, undefined iff empty or mixed |
| BatchActions.Coalesce | src/components/batch-actions.tsx:74-76 | `??`: the override if set, else the fallback |
| BatchActions.EffectiveArchivedFollowsOverride | src/components/batch-actions.tsx:74-76 | the effective value is the default until the user picks, then the user's choice |
| BatchActions.BatchForm.Apply | src/components/batch-actions.tsx:78-84 | the patch carries the three overrides and never a derived default |
| BatchActions.ApplySendsIffChanges | src/components/batch-actions.tsx:86-89 | the patch is non-empty iff `hasChanges` |
| BatchActions.NoChangesPatchesNothing | src/components/batch-actions.tsx:86-89 | without changes the patch rewrites no row |
| BatchActions.BatchForm.SetStatus | src/components/batch-actions.tsx:114-116 | sets only the status override |
| BatchActions.BatchForm.SetProgress | src/components/batch-actions.tsx:127-131 | sets only the progress override |
| BatchActions.BatchForm.ToggleArchived | src/components/batch-actions.tsx:147-156 | the override becomes false when the box shows checked and true otherwise, so the shown state flips |
| RatingInput.Decrement | src/components/ui/rating-input.tsx:14-21 | blank: no call; at most 1: `null`; otherwise one less |
| RatingInput.Increment | src/components/ui/rating-input.tsx:23-29 | blank: 1; below 10: one more; from 10 up: no call |
| RatingInput.Blur | src/components/ui/rating-input.tsx:53-58 | below 1 becomes 1, above 10 becomes 10; blank or in-range values make no call |
| RatingInput.BlurIdempotent | src/components/ui/rating-input.tsx:53-58 | a second blur after the first makes no call |
| RatingInput.IncrementNeverPassesTen | src/components/ui/rating-input.tsx:24-28 | from blank or at most 10, any number of presses stays at most 10 |
| RatingInput.IncrementFromBlank | src/components/ui/rating-input.tsx:23-29 | n presses on a blank rating give min(n, 10) |
| RatingInput.IncrementFromValue | src/components/ui/rating-input.tsx:26-27 | n presses from k in [1, 10] give min(k + n, 10) |
| RatingInput.StepsAreInverse | src/components/ui/rating-input.tsx:19-27 | plus undoes minus on 2..10 and minus undoes plus on 1..9 |
| NumberInput.TypedInput | src/components/ui/rating-input.tsx:31-51 | empty text clears, parsable text passes the parsed integer unclamped, other text makes no call (year-input.tsx:32-43 is the same) |
| NumberInput.TypedInputShow | src/components/ui/year-input.tsx:32-43 | typing the decimal form of a number sets exactly that number |
| NumberInput.Next | src/components/ui/rating-input.tsx:17-19 | the value the parent passes back after each kind of `onChange` call |
| YearInput.Decrement | src/components/ui/year-input.tsx:16-22 | blank: the current year; otherwise one less |
| YearInput.Increment | src/components/ui/year-input.tsx:24-30 | blank: the current year; otherwise one more |
| YearInput.StepsAreInverse | src/components/ui/year-input.tsx:21-29 | for any shown year, plus after minus and minus after plus give it back |
| YearInput.StepsAlwaysSet | src/components/ui/year-input.tsx:16-30 | both buttons always set a year |
| Text.Lower | src/lib/utils.ts:11 | `toLowerCase` keeps the length and lowers each ASCII letter |
| Text.LowerIdempotent | src/hooks/use-album-library.ts:59 | lowering twice equals lowering once |
| Text.Trim | convex/albums.ts:131-132 | `trim` returns the piece of the input that has only white space before and after it and none at either of its own ends |
| Text.TrimUnique | convex/albums.ts:131-132 | that description fixes the result: any such piece is `trim`'s, and an all-white-space input trims to `""` |
| Text.TrimIdempotent | convex/albums.ts:131-132 | trimming twice equals trimming once |
| Text.ParseInt | src/components/ui/rating-input.tsx:38-39 | `NaN` exactly when no digit follows the white space and the sign |
| Text.ParseIntReads | src/components/ui/rating-input.tsx:38-39 | white space, an optional sign, digits, then anything that does not start with a digit parse to the signed value of the digits |
| Text.LeadingZeros | src/components/ui/year-input.tsx:39-41 | leading zeros do not change the value of the digits |
| Text.ParseShow | src/components/ui/year-input.tsx:39-41 | `parseInt` of a number's decimal form gives back the number |
| Slug.ReplaceAmpersands | src/lib/utils.ts:12 | the result holds no `&`; a string without `&` is kept |
| Slug.AmpersandSpelledOut | src/lib/utils.ts:12 | each `&` becomes "and", and the text on either side is rewritten on its own |
| Slug.CollapseRuns | src/lib/utils.ts:13 | the result is made of `[a-z0-9-]` with no two hyphens in a row, keeps the input's letters and digits in order, and starts with a hyphen iff the input starts with another character |
| Slug.CollapseRun | src/lib/utils.ts:13 | a maximal run of characters outside `[a-z0-9]` becomes exactly one hyphen |
| Slug.AlnumRunKept | src/lib/utils.ts:13 | a run of letters and digits is kept as it is; with `CollapseRun` this fixes the rewrite on every input |
| Slug.SlugOfWords | src/lib/utils.ts:9-14 | two words of letters and digits with a separator of other characters between them slug to the words joined by one hyphen |
| Slug.SkipRun | src/lib/utils.ts:13 | drops only the characters outside `[a-z0-9]` at the front, keeping every letter and digit |
| Slug.SlugShape | src/lib/utils.ts:9-14 | every slug is made of `[a-z0-9-]`, never starts or ends with `-`, and never contains `--` |
| Slug.SlugIgnoresCase | src/lib/utils.ts:11 | strings equal up to ASCII case have the same slug |
| Slug.SlugifyIdempotent | src/lib/utils.ts:9-14 | `slugify(slugify(s)) == slugify(s)` |
| Slug.SlugKeepsAlnums | src/lib/utils.ts:9-14 | the slug holds exactly the letters and digits of the lowered, ampersand-spelled text, in order |
| Slug.SlugOfAlnums | src/lib/utils.ts:9-14 | a string of lower-case letters and digits is its own slug |
| Slug.DropLeadingHyphens | src/lib/utils.ts:14 | drops exactly the front run of hyphens: every dropped character is a hyphen and the result does not start with one |
| Slug.DropTrailingHyphens | src/lib/utils.ts:14 | drops exactly the back run of hyphens: every dropped character is a hyphen and the result does not end with one |
| Slug.RymLinkDeterminesSlugs | src/lib/utils.ts:16-19 | the link is the prefix, the artist slug, `/`, the title slug, `/`; equal links have equal slugs |
| Slug.LinkDeterminesParts | src/lib/utils.ts:19 | the link template can be cut back into its two slugs |
| Validations.AcceptedFormBounds | src/lib/validations.ts:3-20 | an accepted form has a non-empty title and artist, an absent year or one in [1900, currentYear+1], a known acquisition and progress, and a rating that is absent, `null` or in [1, 10] |
| Validations.BlankTitleAccepted | src/lib/validations.ts:4 | the title check does not trim: one space passes, the empty string fails |
| Validations.EmptyLinkRules | src/lib/validations.ts:15-19 | `rymLink` may be `""`, `coverUrl` may not |
| Validations.RymAddressIsUrl | src/lib/validations.ts:15 | a generated RateYourMusic link passes the URL check |
| Validations.BlurredRatingValid | src/lib/validations.ts:14 | after the rating widget loses focus the rating passes the schema, whatever was typed |
| Validations.RatingStepsKeepValid | src/lib/validations.ts:14 | the rating buttons keep a valid rating valid |

## Left out

- Network and blob I/O: `fetch`, the `HEAD` probe and the MusicBrainz request are parameters that say how each request ends. `ctx.storage` is a map with an id counter.
- Scheduler timing and concurrency: a scheduled job runs only when a later call runs it, and concurrent backfills are not modelled. The `Promise.all` of the batch mutations is a sequential loop, which cannot be observed inside one transaction.
- The `_creationTime` system field is not modelled. Apart from it, a catalog row and a link have no field name in common, so the merged object of `get` is the pair of rows, and "user fields override" leaves nothing to decide.
- The getAlbumCoverStatus and updateCoverImageId debug `console.log` calls are not modelled. Neither are create's unreachable branch for a missing re-fetched link (convex/albums.ts:226-229), the logs of `storeCoverArt`, or the toasts of the client handlers.
- A store or patch that throws inside `storeCoverArt`'s `try` is not a separate outcome. A missing catalog row is the patch-failure outcome `PatchFailed`, which keeps the stored blob, as the source does.
- `confirm` in the batch delete handler is the parameter `confirmed`. How the mutation ends is the parameter `succeeded`.
- React rendering, dialogs, focus handling, the add/edit forms that only assemble arguments for `create`/`update`, and the search debounce are not modelled.
- Lower-casing and the slug rewrite are ASCII only. Full Unicode `toLowerCase` and the regex engine are not modelled.
- `Text.Trim` follows the ECMAScript white-space set, but treats each `char` as a code point.
- `Validations.IsUrl`: zod's URL check is approximated by the WHATWG scheme rule: a letter, scheme characters, then `:`.
- Numbers are unbounded integers: there is no `NaN` or floating point. The schema's `number()` fields have no `.int()`, so fractional years and ratings are outside the model, and so are the `Number.isNaN` branches of the steppers.
- `MusicBrainz.TypePriority`: keys the object inherits from its prototype (such as `"constructor"`) are treated like any other unknown type.
- `MusicBrainz.SortResults`: the engine's sorting algorithm is replaced by an insertion sort. The result it must give is fixed by the comparator and stability, and the model proves both.
- `Albums.Database.BatchDelete`: a repeated id is removed once. Whether Convex accepts a second `delete` of the same id within one mutation is not modelled.
- `Albums.Database.UpdateCoverImageId`: its `albumId` argument is a plain string in the source. Strings that are ids of neither table are not modelled.
- `Slug.RymLink` has no contract of its own. Its format and injectivity are stated by `Slug.RymLinkDeterminesSlugs` and `Slug.LinkDeterminesParts`.

Where the code does less than its own comments and messages suggest, the model follows the code:

- The comments at convex/albums.ts:150-151 and 161-162 say the fallback lookups handle a title or an artist whose casing differs. Each lookup compares only one field case-insensitively and needs the other exact, so an album whose title and artist both differ in case is not found (`Albums.BothFieldsRecasedFindsNothing`).
- The message "Title is required" at src/lib/validations.ts:4 reads as refusing a blank title. The check counts characters only, and `create` trims without checking, so a title of one space passes and is stored as `""` (`Validations.BlankTitleAccepted`).

## Findings

| source | as written | input that shows it | evidently intended | confidence | as-written member | corrected member |
|---|---|---|---|---|---|---|
| convex/albums.ts:187 with convex/images.ts:27-30 | `create` inserts the new catalog row with the given `coverUrl`, then schedules `storeCoverArt`; its status check treats `coverUrl` as a cover, so it always returns before fetching | `create` with `coverUrl: "https://x/y.jpg"`, no `coverImageId`, for an album not yet in the catalog: the scheduled job returns "already has a cover" and no image is ever stored | the download runs for a new album that has a URL but no stored image, storing the image and setting `coverImageId` | not executed | Images.CreateThenBackfill | Images.CreateThenBackfillFixed |

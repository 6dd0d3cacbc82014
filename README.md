# Izakaya collection: a verified model of the photo, search and rating logic

The application keeps a personal list of izakaya (venues). Each venue has a name, a
rating, a genre, a memo, a map link, a status (`VISITED` or `WANT_TO_GO`) and
captioned photos. This project models the logic behind that list in Dafny and proves
what it promises:

- **The create/edit form** (`IzakayaForm`). A class whose fields are the form's state:
  - three parallel lists for photos still to upload (preview URLs, captions, files);
  - the photos the venue already has, with a table of their captions;
  - the ids of the photos the user removed.

  Each handler is a method. `HandleSubmit` turns the state into the multipart payload
  (`FormData`, an ordered list of named entries).
- **The collection endpoint** (`IzakayasRoute`).
  - `GET` builds a conjunctive filter from the search parameters, where `All` means
    "no constraint", and returns the matching rows newest first.
  - `POST` reads the form and writes each non-empty uploaded file to an upload
    directory under a name built from the clock, a random draw and the original name.
    It pairs each file with the caption sent at
    the same position, then creates the record with its photo rows. Any failure gives
    500.
  - The directory and the database are classes. The clock, the random draws and the
    outcome of each write and of the create call are parameters.
- **The search bar** (`SearchFilter`) and **the list page** (`HomePage`). The bar's state
  becomes query parameters, leaving out `''` and `All`; the page reads them back. It
  applies a case-insensitive name match and equality on genre and status, orders by
  creation time descending, and renames the row fields for the cards.
- **The star rating** (`StarRating`): star `i` has value `i+1` and is filled iff `i+1 <= rating`.
  A click reports `i+1` unless the widget is read-only.
- **The card's hero image** (`IzakayaCard`): the first photo's url.

Shared modules:

- `Common`: options, JavaScript whitespace, decimal printing, case folding.
- `Entries`: a first-wins list of key/value entries, the model of both `FormData` and
  `URLSearchParams`.
- `Ordering`: a stable sort by a key, descending, standing for the stores' `ORDER BY … DESC`.

Three facts about the code shape the model:

- `POST /api/izakayas` only creates venues. Removing photos (deleting their files and rows)
  and applying caption edits happen in the `PUT` handler of `app/api/izakayas/[id]/route.ts`,
  which is not part of this model. Here the deletion list and the caption table are built
  by the form and go no further.
- A failing file write aborts the whole `POST` with 500; it does not skip that one file.
- The record is created after all files are written, in one nested create with its photos.

## Model

| member | source | states |
|---|---|---|
| Common.ReplaceWhitespace | app/api/izakayas/route.ts:64 | `replace(/\s/g, '-')`: same length; each whitespace character becomes `-`, every other character is kept |
| Common.ReplaceWhitespaceSanitizes | app/api/izakayas/route.ts:64 | the result holds no whitespace, a clean name is unchanged, and the replacement is idempotent |
| Common.NatToDecimal | app/api/izakayas/route.ts:64 | the timestamp prints as a non-empty digit string with no leading zero |
| Common.DecimalRoundTrip | app/api/izakayas/route.ts:64 | reading the printed timestamp back gives the timestamp |
| Common.NumberOfToString | components/IzakayaForm.tsx:86 | `Number(rating.toString())` gives the rating back, negative numbers included |
| Common.Lower | app/page.tsx:24 | case folding keeps the length and folds character by character |
| Entries.GetIsFirstOfAll | components/SearchFilter.tsx:20-22 | `get` is the first of `getAll` (none when there is none), and `has` holds iff `getAll` is non-empty |
| Entries.GetAllConcat | components/IzakayaForm.tsx:103-106 | the values of a key in two lists joined are the values in the first, then those in the second |
| Entries.GetAllOne | components/SearchFilter.tsx:26 | a one-entry list holds a value only for its own key |
| Entries.GetAllAppend | components/IzakayaForm.tsx:96 | `append` adds the value at the end of its key's values and changes no other key |
| Entries.GetAllDelete | components/IzakayaForm.tsx:90 | `delete` removes every value of its key and changes no other key |
| Entries.GetAllReplaceFirst | components/IzakayaForm.tsx:86 | replacing the first entry of a key that has entries leaves that key with exactly the new value |
| Entries.GetAllSet | components/IzakayaForm.tsx:86-87 | `set` leaves its key with exactly the new value and changes no other key |
| Entries.SetFreshAppends | components/SearchFilter.tsx:26-28 | `set` of a key not yet present is an append |
| Ordering.InsertDesc | app/api/izakayas/route.ts:30 | inserting into a descending list gives a descending list holding the same rows plus the new one |
| Ordering.SortDesc | app/api/izakayas/route.ts:30 | the result is a permutation of the rows, ordered by the key descending |
| Ordering.SortDescKeepsRows | app/page.tsx:22 | sorting keeps the number of rows and exactly the same rows |
| StarRating.Stars | components/StarRating.tsx:25-27 | `maxRating` stars; star `i` has value `i+1` and is filled iff `i+1 <= rating`; the filled stars form a prefix |
| StarRating.FilledCountOfRow | components/StarRating.tsx:27 | the filled stars of a row starting at a given value number `rating - first + 1`, clamped to the row |
| StarRating.FilledCountIsRating | components/StarRating.tsx:26-27 | the number of filled stars is the rating clamped to `[0, maxRating]`, so it is exactly the rating when that lies in range |
| StarRating.FilledCountMonotone | components/StarRating.tsx:27 | a higher rating never fills fewer stars |
| StarRating.Click | components/StarRating.tsx:33-34 | a click on star `i` reports that star's value `i+1`, in `[1, maxRating]`; a read-only widget reports nothing |
| FormData.BlobsPush | components/IzakayaForm.tsx:103-104 | one more file adds one entry at the end, so the file entries (`Blobs`) are one per file, in order |
| IzakayaForm.Ids | components/IzakayaForm.tsx:78-81 | every shown photo's id is in the id set |
| IzakayaForm.IdsConcat | components/IzakayaForm.tsx:80 | the ids of two lists joined are the union of their ids |
| IzakayaForm.CaptionTableOfImages | components/IzakayaForm.tsx:34-36 | the initial caption table has exactly the initial photos' ids as keys, each mapped to the last such photo's caption, or `''` when it has none |
| IzakayaForm.WithoutId | components/IzakayaForm.tsx:80 | `filter(img => img.id !== id)`: exactly the photos with another id stay, and the list does not grow |
| IzakayaForm.WithoutIdConcat | components/IzakayaForm.tsx:80 | filtering distributes over joining, so the survivors keep their order |
| IzakayaForm.WithoutIdIds | components/IzakayaForm.tsx:80 | the ids left are the old ids minus the removed one; removing an id not shown changes nothing |
| IzakayaForm.WithoutIndex | components/IzakayaForm.tsx:73-75 | `filter((_, i) => i !== index)`: an index in range removes that one entry and shifts the later ones down by one; any other index changes nothing |
| IzakayaForm.Zip | components/IzakayaForm.tsx:31-32 | one pending photo per file |
| IzakayaForm.WithoutIndexKeepsAlignment | components/IzakayaForm.tsx:72-76 | removing one index from each of the three lists is removing that pending photo: the lists stay aligned |
| IzakayaForm.SetRatingAndStatus | components/IzakayaForm.tsx:86-87 | after the two `set` calls, rating and status each hold exactly their new value; other keys are unchanged |
| IzakayaForm.DeleteFileInputs | components/IzakayaForm.tsx:89-93 | after the two `delete` calls, `image` and `images-input` are empty; other keys are unchanged |
| IzakayaForm.AppendEdits | components/IzakayaForm.tsx:95-99 | the deletion list and the caption table are each appended once to their keys; other keys are unchanged |
| IzakayaForm.SubmitHeaderValues | components/IzakayaForm.tsx:85-99 | every key of the payload before the photo loop holds what `HeaderValues` says |
| IzakayaForm.PhotoValues | components/IzakayaForm.tsx:104-105 | one turn of the photo loop adds one file to `images` and one caption to `captions`, and nothing else |
| IzakayaForm.FormState.constructor | components/IzakayaForm.tsx:29-36 | no photo pending and none removed; the rating is the initial one or 3, the status the initial one or `VISITED`; the caption table is built from the initial photos |
| IzakayaForm.FormState.HandleImageChange | components/IzakayaForm.tsx:42-58 | `n` files picked append `n` previews, `n` empty captions and `n` files, in order, and keep the earlier pending photos; an absent or empty list changes nothing; the three lists stay aligned |
| IzakayaForm.FormState.HandleDrop | components/IzakayaForm.tsx:212-239 | a drop does what picking the same files does |
| IzakayaForm.FormState.HandleCaptionChange | components/IzakayaForm.tsx:60-64 | only caption `index` changes; every other pending photo and all lengths stay as they were |
| IzakayaForm.FormState.HandleExistingCaptionChange | components/IzakayaForm.tsx:66-68 | only the caption of photo `id` changes |
| IzakayaForm.FormState.HandleRemovePreview | components/IzakayaForm.tsx:72-76 | the pending photo at `index` leaves all three lists; the rest stay aligned and in order |
| IzakayaForm.FormState.HandleRemoveExisting | components/IzakayaForm.tsx:78-81 | the id is appended to the deletion list; exactly the photos with that id disappear; the caption table is untouched; removing a shown id keeps the deletion list free of duplicates and of shown ids |
| IzakayaForm.FormState.SetStatus | components/IzakayaForm.tsx:119 | the status buttons set the status and nothing else |
| IzakayaForm.FormState.ClickStar | components/IzakayaForm.tsx:278 | a star click sets the rating to the star's value, in `[1, 5]`, and nothing else |
| IzakayaForm.FormState.HandleSubmit | components/IzakayaForm.tsx:83-110 | the payload has one rating and one status; no `image` or `images-input`; the deletion list and the caption table appended once; the `k`-th new file and the `k`-th caption (or `''`) appended in order (`Blobs` and `SubmittedCaptions`); `images`, `captions` and every key the handler does not touch keep the fields the form element had |
| IzakayaForm.FormState.AppendNewPhotos | components/IzakayaForm.tsx:102-107 | the loop appends the files and their captions, as many of each, in order, and touches no other key |
| SearchFilter.SearchQueryValues | components/SearchFilter.tsx:24-28 | what each key holds in the parameters of a search |
| SearchFilter.SearchQuerySetsActiveKeys | components/SearchFilter.tsx:26-28 | `q` is set iff it is non-empty; genre and status are set iff non-empty and not `All`; each set key holds exactly its value; no other key is set |
| SearchFilter.SearchQueryKeyOrder | components/SearchFilter.tsx:25-28 | each key comes at most once, in the order q, genre, status |
| SearchFilter.SearchState.constructor | components/SearchFilter.tsx:20-22 | the initial query is the parameter or `''`; the initial choices are the parameters or `All` (`OrDefault`: an absent or empty parameter gives the fallback) |
| SearchFilter.SearchState.SetQuery | components/SearchFilter.tsx:50 | typing changes the query and nothing else |
| SearchFilter.SearchState.SetGenre | components/SearchFilter.tsx:59 | choosing a genre changes the genre and nothing else |
| SearchFilter.SearchState.SetStatus | components/SearchFilter.tsx:74 | choosing a status changes the status and nothing else |
| SearchFilter.SearchState.HandleSearch | components/SearchFilter.tsx:24-31 | the successive `set` calls produce exactly the parameters of the current state |
| SearchFilter.SearchState.HandleKeyDown | components/SearchFilter.tsx:33-37 | Enter runs the same search as the button; any other key does nothing |
| SearchFilter.ReopenedSearchKeepsState | components/SearchFilter.tsx:20-28 | a bar opened on the parameters of a search shows the same state, except that an empty choice comes back as `All` |
| HomePage.NormalizeReadsSingleValue | app/page.tsx:15-17 | the query is present iff the key occurs exactly once, and is then that value; a choice is present iff the key occurs exactly once with a value other than `All`, and is then that value; no choice is ever `All` |
| HomePage.SearchRoundTrip | app/page.tsx:15-17 | reading back the parameters of a search gives the state, with `''` and `All` absent |
| HomePage.BuildQuery | app/page.tsx:19-26 | the query orders by creation time descending; a row satisfies all its filters iff it is wanted (name case-insensitively contains `q`, and genre and status are equal, each only when given and non-empty); it has a name filter iff `q` is non-empty; one filter per non-empty parameter |
| HomePage.Matching | app/page.tsx:28 | the store keeps exactly the rows that satisfy the query |
| HomePage.MatchingIsWanted | app/page.tsx:24-28 | the store's result for the built query is exactly the wanted rows |
| HomePage.WantedRowsMembers | app/page.tsx:24-26 | the wanted rows are exactly the table's rows that are wanted |
| HomePage.SelectedIsOrderedMatch | app/page.tsx:22-28 | the page gets exactly the wanted rows, each as often as in the table, newest first |
| HomePage.ToViewRenames | app/page.tsx:31-43 | a row's view keeps `id`, `name`, `rating`, `genre` and `status`, and `map_url` as `mapUrl`; it drops `memo` and `created_at`; each photo keeps `id`, `url` and `caption`, with `izakaya_id` and `created_at` as `izakayaId` and `createdAt`; photos keep their number and order; missing photos become an empty list |
| HomePage.MapRowsKeepsRows | app/page.tsx:30 | the mapping keeps the number and order of the rows; missing data becomes an empty list |
| HomePage.Home | app/page.tsx:13-59 | the page shows the mapped selection for the normalised parameters, or nothing when the query fails; the empty state shows iff no venue is shown |
| HomePage.EmptyStateIffNothingWanted | app/page.tsx:59 | the empty state shows iff the query failed or no row of the table is wanted |
| IzakayasRoute.BuildWhere | app/api/izakayas/route.ts:13-23 | the name constraint is present iff `q` is non-empty; genre and status constraints iff present, non-empty and not `All`; a row matches iff it is requested |
| IzakayasRoute.FilteredIsRequested | app/api/izakayas/route.ts:25-26 | the store's filtered rows are exactly the requested rows, in table order |
| IzakayasRoute.RequestedRowsMembers | app/api/izakayas/route.ts:13-23 | the requested rows are exactly the table's rows that are requested |
| IzakayasRoute.HandleGet | app/api/izakayas/route.ts:6-37 | a store failure gives 500 with its message; otherwise 200 with exactly the requested rows, each as often as in the table, ordered by `createdAt` descending |
| IzakayasRoute.RandomSuffixIsClean | app/api/izakayas/route.ts:64 | the random part of the name holds no whitespace and no `/` |
| IzakayasRoute.StorageNameIsClean | app/api/izakayas/route.ts:64-70 | the handler's file name and its url hold no whitespace; the url is `/uploads/` followed by the name |
| IzakayasRoute.StorageNameStartsWithStamp | app/api/izakayas/route.ts:64 | the handler's name starts with the timestamp in decimal, which reads back as the timestamp, then a dash |
| IzakayasRoute.StorageNameEndsWithOriginal | app/api/izakayas/route.ts:64 | the handler's name ends with the original name, whitespace replaced; it ends with the original itself when that held none |
| IzakayasRoute.StorageNameAsWrittenEscapesUploads | app/api/izakayas/route.ts:64-68 | for every clock reading and draw, a file named `/../../` followed by a plain name `b` is written to `public/b`, outside `public/uploads` |
| IzakayasRoute.ReplaceSeparatorsSanitizes | app/api/izakayas/route.ts:64 | the corrected sanitising leaves no `/` and changes nothing in a name that had none |
| IzakayasRoute.JoinPathPlainName | app/api/izakayas/route.ts:65-66 | `JoinPath` is POSIX `path.join` normalisation: split at `/`, drop empty and `.` segments, let `..` remove the directory before it; a plain name (no `/`, not empty, `.` or `..`) lands directly in the directory |
| IzakayasRoute.StorageNameAgreesAsWritten | app/api/izakayas/route.ts:64 | for an original name without `/` the model's name is the handler's |
| IzakayasRoute.StorageNameStaysInUploads | app/api/izakayas/route.ts:64-70 | the model's name holds no whitespace and no `/`, `path.join` puts the file directly in `public/uploads` under that name, and the url is `/uploads/` followed by it |
| IzakayasRoute.StatusOf | app/api/izakayas/route.ts:47 | the status is the submitted one when non-empty, otherwise `VISITED`; never empty |
| IzakayasRoute.RatingOf | app/api/izakayas/route.ts:43 | a missing or empty rating reads as 0; a non-text value is not a number |
| IzakayasRoute.RatingReadsSubmitted | app/api/izakayas/route.ts:43 | the rating the form submits is read back as the same integer |
| IzakayasRoute.Run | app/api/izakayas/route.ts:58-74 | the positions stored after some turns are positions of submitted files |
| IzakayasRoute.PhotosAndWritesSnoc | app/api/izakayas/route.ts:68-72 | storing one more file adds its photo and its write at the end |
| IzakayasRoute.UploadIndicesAreUploads | app/api/izakayas/route.ts:62 | the stored positions are exactly the files with at least one byte, each once, in submission order |
| IzakayasRoute.RunFollowsUploads | app/api/izakayas/route.ts:58-74 | the loop throws iff some non-empty file's write fails; until then it has stored every non-empty file, in order |
| IzakayasRoute.RunStep | app/api/izakayas/route.ts:58-74 | one turn skips an empty file, throws on a failing write, or stores the file |
| IzakayasRoute.RunStaysFailed | app/api/izakayas/route.ts:68 | once a write has thrown, later turns change nothing |
| IzakayasRoute.FailureLeavesEarlierFiles | app/api/izakayas/route.ts:68-100 | when a write throws, the files already written are exactly the non-empty files before the first failing one; they stay on disk with no record |
| IzakayasRoute.HeroIsFirstUpload | app/api/izakayas/route.ts:58-74 | when no write fails, the first staged photo is the first non-empty file submitted, so `HeroUrl` of the photos in stored order is its url; with no non-empty file there is none |
| IzakayasRoute.SubmittedPhotosKeepCaptions | app/api/izakayas/route.ts:53-60 | for a payload from the form (`Blobs` and `SubmittedCaptions`), every staged photo is a non-empty file whose caption (`CaptionAt`) is the one the form kept at that file's own position, absent when empty, even after empty files are skipped |
| IzakayasRoute.UploadDir.constructor | app/api/izakayas/route.ts:65 | the upload directory starts empty |
| IzakayasRoute.UploadDir.WriteFile | app/api/izakayas/route.ts:66-68 | a write stores the bytes under the name in `public/uploads`, or throws and stores nothing |
| IzakayasRoute.ApplyWritesSnoc | app/api/izakayas/route.ts:68 | one more write is one more update of the directory |
| IzakayasRoute.Database.constructor | app/api/izakayas/route.ts:76 | an empty table with its id counters at 1 |
| IzakayasRoute.Database.Create | app/api/izakayas/route.ts:76-94 | the create fails without change, or adds one record under a fresh id with one photo row per staged photo, in order; no new photo id is the id of an existing photo |
| IzakayasRoute.NewRecord | app/api/izakayas/route.ts:84-88 | the record has the given id and one photo row per staged photo, with its url and caption, belonging to that record; the photo ids increase strictly and lie in `[firstImageId, firstImageId + n)` |
| IzakayasRoute.StageTurn | app/api/izakayas/route.ts:59-73 | one turn moves the staged photos, the failure flag and the directory from the state after `i` turns to the state after `i+1` |
| IzakayasRoute.StageUploads | app/api/izakayas/route.ts:56-74 | the loop stages exactly the photos of the stored positions, fails iff a write throws, and leaves the directory with exactly their writes applied |
| IzakayasRoute.HandlePost | app/api/izakayas/route.ts:39-101 | when every write and the create succeed: 201 with the new record, whose photo rows are the staged photos; otherwise 500 and the table unchanged; in both cases the files written stay in the directory |

## Left out

- Rendering: JSX, CSS, icons, images, router navigation and `Suspense` are not modelled.
  `router.push` is the returned parameter list, and the header and layout are presentational.
- The new-venue page's `fetch` call and the edit pages are network code and are not modelled.
- The `GET`, `PUT` and `DELETE` handlers of `app/api/izakayas/[id]/route.ts` are not part of
  this model: reading one venue, updating its fields, deleting removed photos (their files
  with `unlink` and their rows with `deleteMany`), applying caption edits, adding photos, and
  deleting a venue.
- File paths are POSIX paths: `path.join` splits at `/` and resolves `.` and `..`. Windows
  paths, where `\` also separates directories, are not modelled; a `\` in a name is an
  ordinary character here, as it is on Linux and macOS.
- IzakayasRoute.StorageName: the name the rest of the model stores under also replaces each
  `/` in the original name, which the handler does not do (see Findings). No file system
  allows `/` in a file name, so for every name a browser reports for a picked file it is the
  handler's name.
- IzakayasRoute.HandlePost: takes the form already parsed. A body that `request.formData()`
  cannot parse throws inside the `try`, which gives 500 with nothing written; that path is
  not modelled. A throw from `image.arrayBuffer()` ends the loop where a failing write does,
  so the `writeOk` parameter of each turn covers it as well.
- Prisma and Supabase are modelled as a table of rows with a filter and a stable sort.
  - The order among rows with equal creation time is the model's choice.
  - Prisma `contains` is a case-sensitive substring test.
  - Supabase `ilike` is a case-insensitive substring test, folding only ASCII letters;
    `%` and `_` inside the query are not treated as wildcards.
- `Date.now()`, `Math.random()`, the outcome of each `writeFile` and of the create call are
  parameters. The random draw is its list of base-36 digits; uniqueness of file names is
  not claimed.
- File bytes, `Buffer`, `arrayBuffer` and `URL.createObjectURL` are not modelled. A file is
  its name and bytes, and a picked file comes with its object URL.
- `URLSearchParams` percent-encoding and the JSON text of `deletedImageIds` and
  `existingCaptions` are not modelled; those fields are kept as structured values.
- IzakayasRoute.RatingOf: `Number(...)` is read on integer text only. Trimming of
  whitespace, fractions and exponents are not modelled, and every other text reads as NaN.
- IzakayasRoute.CaptionAt: a caption entry that is a file rather than text reads as absent,
  and `TextField` treats any non-text field the same way. The source casts these with
  `as string`.
- IzakayasRoute.Database.Create: the schema's required fields are modelled by `Accepted`,
  which requires name, genre and a numeric rating. Database-side constraints beyond that
  are the `ok` parameter.
- IzakayaForm.FormState.HandleCaptionChange: requires an index in range. The form only calls
  it for a rendered caption box, and JavaScript would grow the array otherwise.
- IzakayaForm.FormState.SetStatus: requires one of the two statuses the buttons set.
- The photo-loop `captions[index] || ''` is modelled on text captions only. The form's
  captions are always strings.

## Findings

| source | as written | input that shows it | evidently intended | confidence | as-written member | corrected member |
|---|---|---|---|---|---|---|
| app/api/izakayas/route.ts:64-68 | the stored name replaces only whitespace in the client's file name, so a `/` survives and `path.join` resolves the `..` segments | a non-empty file named `/../../x`, any clock reading and draw: written to `public/x` | the file lands directly in `public/uploads` under the name its `/uploads/` url shows | medium, not executed | IzakayasRoute.StorageNameAsWrittenEscapesUploads | IzakayasRoute.StorageNameStaysInUploads |

# PintarLokal page logic, modelled in Dafny

PintarLokal is a local-services marketplace. Service providers ("mitra") keep a
profile with up to four selling points, a portfolio gallery and the reviews
customers leave; customers browse providers on the landing page and filter
search results by category tab. The pages talk directly to a hosted backend
(auth, `providers` / `reviews` / `portfolio` tables, storage buckets).

This project models the data rules inside those pages. Each backend call is
replaced by its outcome, passed in as a parameter: the signed-in user
(`Option<string>`), the rows a query returns (`Result<...>`), an error message
or none, the clock value `Date.now()` and the confirm-dialog answer. Three handlers
return the list of backend calls they make, in order (`seq<Effect>`):
`HandleAvatarUpload`, `HandleUpload` and `DeleteImage`. The order of upload,
insert, refresh, removal and deletion is part of their contracts. The other
handlers return what the page hands to the backend or the router:
`HandleSubmit` returns the row it upserts, if any. `HandleDeleteReview`
returns whether a delete is requested. The three `Fetch*` methods return
whether to redirect to login.

| file | module | models |
|---|---|---|
| maybe.dfy | `Maybe` | `null`/`undefined` as `Option`, backend outcomes as `Result` |
| js_text.dfy | `JsText` | the JavaScript string operations used: `trim`, `split`, `join`, `slice(-n)`, case mapping, `includes`, `\|\|` on strings, integer rendering |
| seqs.dfy | `Seqs` | `Array.prototype.filter` and what it promises |
| records.dfy | `Records` | row shapes, the status banner, backend effects |
| storage_paths.dfy | `StoragePaths` | file extension, object keys, public URL, key from URL |
| profile_editor.dfy | `ProfileEditor` | `app/dashboard/edit/page.tsx` |
| landing.dfy | `Landing` | `app/page.tsx` |
| gallery.dfy | `Gallery` | `app/dashboard/gallery/page.tsx` |
| search_tabs.dfy | `SearchTabs` | `app/search/page.tsx` |
| dashboard.dfy | `Dashboard` | `app/dashboard/page.tsx` |

Pure expressions (the feature-list spreads and filters, the rating map and
reduce, key derivation, the tab filter, display fallbacks) are functions with
lemmas. Pages whose handlers update React state step by step are classes
(`EditProfilePage`, `GalleryPage`, `DashboardPage`). Their fields are the page's
state variables, and each handler is a method whose `modifies` clause names
exactly the state it may set.

Four behaviours of the pages, as the code has them:
- Deleting a portfolio image removes the storage object first and stops on a
  storage error; the row is deleted only after a successful removal.
- The landing average for a provider without reviews is the string `"0.0"`.
- Removing a feature at an index outside the list leaves the list unchanged.
- The dashboard's rating card is the constant `"4.9"` whenever there is a
  review, whatever the ratings are.

## Model

| member | source | states |
|---|---|---|
| `JsText.TrimStart` | app/dashboard/edit/page.tsx:118 | the result is a suffix that does not start with whitespace, and everything dropped is whitespace |
| `JsText.TrimEnd` | app/dashboard/edit/page.tsx:118 | the result is a prefix that does not end with whitespace, and everything dropped is whitespace |
| `JsText.ToLower` | app/search/page.tsx:46 | the lower-cased text has the same length; each upper-case letter becomes its lower-case letter, so none is left; every other character is kept |
| `JsText.LowerOfUpper` | app/search/page.tsx:46 | lower-casing upper-cased text is lower-casing the text itself: the original case does not matter |
| `JsText.Contains` | app/search/page.tsx:46 | `s.includes(t)` holds exactly when `t` occurs in `s` at some index |
| `JsText.BlankIffAllWhitespace` | app/dashboard/edit/page.tsx:118 | `s.trim() === ""` holds exactly when every character of `s` is whitespace |
| `JsText.Split` | app/dashboard/gallery/page.tsx:108 | `split` gives at least one part; no part holds the separator; without a separator it gives the string alone, with one at least two parts; the first part is the text before the first separator |
| `JsText.JoinSplit` | app/dashboard/gallery/page.tsx:108-109 | joining the parts of a split with the same separator gives back the string |
| `JsText.SplitJoin` | app/dashboard/gallery/page.tsx:108-109 | splitting a join of separator-free parts gives back the parts |
| `JsText.SplitAround` | app/dashboard/gallery/page.tsx:108 | splitting `a + sep + b` concatenates the splits of `a` and `b` |
| `JsText.Join` | app/dashboard/gallery/page.tsx:109 | the joined text starts with the first part, followed by the separator when more parts follow; when no part holds the separator, it occurs exactly when there are two parts or more (`SplitJoin` and `JoinSplit` make it the inverse of `split`) |
| `JsText.TakeLast` | app/dashboard/gallery/page.tsx:109 | `slice(-n)` gives the last `n` elements, or all of them when there are fewer |
| `JsText.SplitLast` | app/dashboard/gallery/page.tsx:59 | the last part of a split is a suffix of the string, preceded by the separator when one occurs |
| `JsText.NatToDecimal` | app/dashboard/gallery/page.tsx:60 | the rendering of a non-negative integer is a non-empty run of digits that starts with `0` only when it is `"0"` |
| `JsText.DecimalRoundTrip` | app/dashboard/gallery/page.tsx:60 | reading back the rendering of `n` gives `n` |
| `JsText.CanonicalDecimal` | app/dashboard/gallery/page.tsx:60 | a digit run without a leading zero is the rendering of its own value, so the rendering is the only such spelling of a number |
| `Seqs.Filter` | app/search/page.tsx:46 | `filter` keeps no more elements than it is given; it keeps only passing elements of the input, and every passing element |
| `Seqs.FilterIsSubsequence` | app/search/page.tsx:46 | the filtered sequence is an order-preserving subsequence of the input |
| `Seqs.FilterCounts` | app/search/page.tsx:46 | each element occurs in the result as often as in the input if it passes, otherwise not at all |
| `Seqs.FilterIdempotent` | app/search/page.tsx:46 | filtering twice with the same test equals filtering once |
| `Seqs.FilterAllPass` | app/dashboard/edit/page.tsx:118 | when every element passes, the filter returns the input |
| `StoragePaths.PortfolioKey` | app/dashboard/gallery/page.tsx:59-60 | the portfolio key is the user id, `/`, then a digit run without a leading zero that reads as `now` (its rendering), `.` and the name's extension; the part after the folder has no further `/` when the file name has none (`KeyFromPublicUrlRoundTrip` recovers it from its URL) |
| `StoragePaths.AvatarKey` | app/dashboard/edit/page.tsx:85-86 | the avatar key is `avatar-<user id>-`, a digit run without a leading zero that reads as `now` (its rendering), `.` and the name's extension; it has no `/` (it sits at the bucket root) when the user id and file name have none |
| `StoragePaths.StampIsRendering` | app/dashboard/gallery/page.tsx:60 | the time stamp inside a portfolio or avatar key is exactly the decimal rendering of `now`, as `${Date.now()}` gives it |
| `StoragePaths.PortfolioKeysDiffer` | app/dashboard/gallery/page.tsx:60-67 | uploads by the same user of the same file name at different times get different keys, so the upload without overwrite does not collide |
| `StoragePaths.AvatarKeysDiffer` | app/dashboard/edit/page.tsx:86 | avatar uploads at different times get different keys |
| `StoragePaths.FileExt` | app/dashboard/gallery/page.tsx:59 | the extension is the text after the last `.`, or the whole name when there is none; it contains no `.` |
| `StoragePaths.KeyFromUrl` | app/dashboard/gallery/page.tsx:108-109 | a URL without `/` is its own key |
| `StoragePaths.KeyOfUrlEndingInKey` | app/dashboard/gallery/page.tsx:108-109 | for any URL ending in `folder/file` with both parts free of `/`, the key taken from it is `folder/file` |
| `StoragePaths.KeyOfOneSlashUrl` | app/dashboard/gallery/page.tsx:108-109 | a URL with exactly one `/`, `folder/file`, is its own key |
| `StoragePaths.KeyFromPublicUrlRoundTrip` | app/dashboard/gallery/page.tsx:59-60 | the key recovered from a portfolio image's public URL is the key `userId/timestamp.ext` it was uploaded under, when the user id and file name have no `/` |
| `ProfileEditor.WithAddedFeature` | app/dashboard/edit/page.tsx:61-65 | below four entries exactly one empty entry is appended and the rest is kept; at four or more the list is unchanged; a list of at most four stays at most four |
| `ProfileEditor.WithUpdatedFeature` | app/dashboard/edit/page.tsx:67-71 | same length, the entry at the index is the new value, every other entry unchanged |
| `ProfileEditor.WithoutFeature` | app/dashboard/edit/page.tsx:73-76 | an index in range drops exactly that entry and keeps the others in order; an index out of range leaves the list unchanged |
| `ProfileEditor.EditsKeepFeatureBound` | app/dashboard/edit/page.tsx:61-76 | from at most four entries, any sequence of add, update and remove edits leaves at most four |
| `ProfileEditor.PersistedFeatures` | app/dashboard/edit/page.tsx:118 | the saved features are no more than the edited ones; each is an edited entry that is not blank; every non-blank entry is saved |
| `ProfileEditor.PersistedFeaturesExact` | app/dashboard/edit/page.tsx:118 | the saved features are an order-preserving subsequence holding each non-blank entry, untrimmed, exactly as often as it was entered |
| `ProfileEditor.PersistedFeaturesExample` | app/dashboard/edit/page.tsx:118 | `["", " ", "Fast", "  Reliable  "]` is saved as `["Fast", "  Reliable  "]` |
| `ProfileEditor.RowFor` | app/dashboard/edit/page.tsx:111-120 | the saved row carries the user id, the form's text fields as typed and the time of the save; its features are the form's filtered to the non-blank entries: an order-preserving subsequence holding exactly those |
| `ProfileEditor.Upsert` | app/dashboard/edit/page.tsx:109-120 | the upsert keyed by `user_id` replaces or adds that user's row and leaves every other row unchanged |
| `ProfileEditor.SaveTwiceIsSaveOnce` | app/dashboard/edit/page.tsx:109-120 | saving the same form twice leaves the table as one save, with a record differing only in `updated_at` |
| `ProfileEditor.SavedFeaturesWithinBound` | app/dashboard/edit/page.tsx:118 | a form with at most four features saves at most four |
| `ProfileEditor.LoadedForm` | app/dashboard/edit/page.tsx:43-51 | a missing text column loads as `''` and missing features as `[]`; a present value loads as stored |
| `ProfileEditor.SaveThenLoad` | app/dashboard/edit/page.tsx:109-120 | loading what a save wrote gives the form back with only blank features removed; a form without blank features comes back unchanged |
| `ProfileEditor.EditProfilePage.constructor` | app/dashboard/edit/page.tsx:14-25 | the page starts loading, not saving, with no banner and an empty form |
| `ProfileEditor.EditProfilePage.FetchProfile` | app/dashboard/edit/page.tsx:31-58 | no user means a redirect to login; a stored row replaces the form; no row or a query error keeps it; loading ends |
| `ProfileEditor.EditProfilePage.AddFeature` | app/dashboard/edit/page.tsx:61-65 | only the feature list changes, as `WithAddedFeature`; the bound of four is preserved |
| `ProfileEditor.EditProfilePage.UpdateFeature` | app/dashboard/edit/page.tsx:67-71 | only the feature list changes, as `WithUpdatedFeature` |
| `ProfileEditor.EditProfilePage.RemoveFeature` | app/dashboard/edit/page.tsx:73-76 | only the feature list changes, as `WithoutFeature` |
| `ProfileEditor.EditProfilePage.HandleAvatarUpload` | app/dashboard/edit/page.tsx:78-98 | no file: nothing happens; otherwise one upload under `avatar-<user>-<now>.<ext>`, and the avatar URL changes only when it succeeds; the banner reports the outcome; saving ends |
| `ProfileEditor.EditProfilePage.HandleSubmit` | app/dashboard/edit/page.tsx:100-135 | with a user, one upsert row built from the form with blank features dropped; without one, no row; the banner reports the outcome; the form is not changed; saving ends |
| `Landing.Sum` | app/page.tsx:47 | the reduce over ratings each in 1..5 lies between the count and five times the count |
| `Landing.RatingTotal` | app/page.tsx:47 | the total is 0 without reviews, and for ratings in 1..5 between the review count and five times it |
| `Landing.ReviewCount` | app/page.tsx:48-49 | the count is the list's length, and 0 exactly when the list is missing or empty |
| `Landing.AvgRating` | app/page.tsx:48 | `"0.0"` without reviews; otherwise whole digits without a leading zero, a point and one digit, reading back as the rounded magnitude of the average in tenths, after a `-` for a negative total (`RatedProviderAverage` bounds it for 1..5 ratings) |
| `Landing.RoundedTenths` | app/page.tsx:48 | the average's magnitude in tenths is the nearest tenth, halves rounded up |
| `Landing.FormatTenthsReadsBack` | app/page.tsx:48 | the one-decimal rendering is digits without a leading zero, a point and one digit, and reads back as the same number of tenths; the negative rendering is `-` followed by it |
| `Landing.ReadsAsTenthsOnlyFormat` | app/page.tsx:48 | any string of that shape reading as `t` tenths is the rendering of `t`, so `AvgRating`'s contract fixes the text |
| `Landing.NoReviewsRating` | app/page.tsx:47-49 | with no review list or an empty one, the count and total are 0 and the average is `"0.0"` |
| `Landing.SumBounds` | app/page.tsx:47 | a sum of ratings each in `lo..hi` lies between `lo` and `hi` times the count |
| `Landing.RatedProviderAverage` | app/page.tsx:47-48 | with reviews rated 1..5 the total is at least the count, the average is between 1.0 and 5.0, unsigned, and never `"0.0"` |
| `Landing.ThreeReviewsExample` | app/page.tsx:46-49 | reviews rated 5, 4, 5 give three reviews and average `"4.7"` |
| `Landing.FormattedProviders` | app/page.tsx:46-50 | one entry per provider, in order, each holding the provider unchanged with its review count and average |
| `Landing.SearchNavigation` | app/page.tsx:60-65 | the search navigates exactly when the term has a non-whitespace character, with the term as typed (untrimmed) |
| `SearchTabs.MatchesTab` | app/search/page.tsx:46 | a provider matches exactly when it has a category in whose lower-cased form the lower-cased tab occurs; a category equal to the tab up to case always matches |
| `SearchTabs.MatchesTabIgnoresCase` | app/search/page.tsx:46 | an upper-cased tab name matches the same providers as the tab name |
| `SearchTabs.FilteredResults` | app/search/page.tsx:44-46 | the `Semua` tab returns the results unchanged; any other tab keeps exactly the results whose lower-cased category contains the lower-cased tab; providers without a category are dropped |
| `SearchTabs.TabKeepsOrder` | app/search/page.tsx:46 | the tab's results are an order-preserving subsequence, each kept provider as often as in the results |
| `SearchTabs.TabFilterIdempotent` | app/search/page.tsx:44-46 | applying the same tab twice equals applying it once |
| `Gallery.SizeGateBoundary` | app/dashboard/gallery/page.tsx:47 | exactly 2 MiB passes the size gate, one byte more does not |
| `Gallery.UploadErrorMessage` | app/dashboard/gallery/page.tsx:70-75 | an upload error whose message contains "Bucket not found" is reported as the missing `portfolio-images` bucket; any other error shows its own message |
| `Gallery.WithoutImage` | app/dashboard/gallery/page.tsx:126 | the list keeps exactly the images whose id differs from the deleted id |
| `Gallery.WithoutImageKeepsOrder` | app/dashboard/gallery/page.tsx:126 | the remaining images keep their order and multiplicity |
| `Gallery.GalleryPage.constructor` | app/dashboard/gallery/page.tsx:13-16 | the page starts loading, with no images, not uploading and no banner |
| `Gallery.GalleryPage.FetchGallery` | app/dashboard/gallery/page.tsx:22-40 | no user means a redirect; returned rows replace the list, no data gives an empty list; a query error keeps it; loading ends |
| `Gallery.GalleryPage.HandleUpload` | app/dashboard/gallery/page.tsx:42-101 | a file over 2 MiB changes only the banner, before any call or uploading flag; otherwise the upload under `userId/now.ext` comes first, the insert of its public URL only after a successful upload, the refresh only after a successful insert; the banner names the outcome; the image list is not changed |
| `Gallery.GalleryPage.DeleteImage` | app/dashboard/gallery/page.tsx:103-131 | nothing without confirmation; storage removal of the URL's key comes first, and the row delete only after it succeeds; the list loses the image only when both succeed, otherwise it is unchanged and the banner shows the failure |
| `Dashboard.Greeting` | app/dashboard/page.tsx:152 | no name, or one that is empty or starts with a space, greets "Mitra"; otherwise the greeting is the non-empty text before the first space |
| `Dashboard.PartnerId` | app/dashboard/page.tsx:187 | `#PL-` followed by the first (up to) eight characters of the user id upper-cased; a missing id shows `undefined` |
| `Dashboard.PartnerIdUsesFirstEight` | app/dashboard/page.tsx:187 | ids agreeing on their first eight characters show the same partner id |
| `Dashboard.Stats` | app/dashboard/page.tsx:172-174 | the review card is the number of reviews; the rating card is `"0.0"` exactly when there are none and `"4.9"` otherwise |
| `Dashboard.RatingCardIgnoresRatings` | app/dashboard/page.tsx:174 | two review lists of the same length show the same cards, whatever their ratings |
| `Dashboard.ShownWhatsApp` | app/dashboard/page.tsx:184 | never empty: the number when present and non-empty, else `-` |
| `Dashboard.ShownCoverage` | app/dashboard/page.tsx:185 | never empty: the location, else the city, else `Surakarta` |
| `Dashboard.ShownCategory` | app/dashboard/page.tsx:186 | never empty: the category when present and non-empty, else `Umum` |
| `Dashboard.WithoutReview` | app/dashboard/page.tsx:74 | the list keeps exactly the reviews whose id differs from the deleted id |
| `Dashboard.WithoutReviewKeepsOrder` | app/dashboard/page.tsx:74 | the remaining reviews keep their order and multiplicity |
| `Dashboard.DashboardPage.constructor` | app/dashboard/page.tsx:28-30 | the page starts loading, with no profile and no reviews |
| `Dashboard.DashboardPage.FetchDashboardData` | app/dashboard/page.tsx:33-68 | no user means a redirect; a profile query error keeps the state; otherwise the profile is taken and the reviews as returned, none when missing; loading ends |
| `Dashboard.DashboardPage.HandleDeleteReview` | app/dashboard/page.tsx:70-77 | the delete is requested only when confirmed; the list loses the reviews with that id only when the delete succeeds, and is unchanged otherwise |

## Left out

- The backend client (auth, table queries, storage uploads, removals and public URLs) is not modelled. Each call's outcome is a parameter. A public URL is modelled as the bucket's public address, `/`, then the object key. The storage client builds that URL itself and may percent-encode the key (for example a space); `KeyFromPublicUrlRoundTrip` then holds only for keys the encoding leaves unchanged. A file name with no `.` but with a space is one such key, since the whole name becomes the extension.
- Timers, confirm dialogs, toasts, router navigation and all rendering are not modelled. The confirm answer is a parameter; a redirect is a returned flag. The banner clearing after two seconds and the redirect after a save are not modelled.
- The flags `saving` and `uploading` are `true` while a handler awaits the backend. Handlers are modelled as atomic, so only their final value is stated.
- The list refresh after a portfolio insert is not awaited. It is an effect (`Refetch`); the list it later loads is what `FetchGallery` models.
- `toFixed(1)` works on the binary double nearest to `total / count`. The model rounds the exact quotient, halves up. The two can differ at quotients ending in 5 hundredths that a double cannot hold exactly.
- `trim`, `toLowerCase` and `toUpperCase` use Unicode tables. The model uses a fixed whitespace set and ASCII case mapping.
- JavaScript strings are sequences of UTF-16 code units, while `string` here is a sequence of Unicode characters. Text outside the Basic Multilingual Plane therefore has a different length and different indices: `slice(0, 8)` in `PartnerId` and `split` on such text can differ from the model.
- `encodeURIComponent` on the search term is not modelled. The navigation returns the term as typed.
- The server-side `ilike` search, the landing query's ordering and limit, and the reviews ordering run in the database and are not modelled.
- The name, WhatsApp and bio inputs replace one form field each. These inline handlers are not modelled.
- Upsert writes only the form's columns. The other columns (`id`, `created_at`, `location`, `city`) are not modelled, so `ReadBack` reads them as missing.
- ProfileEditor.EditProfilePage.UpdateFeature: requires an index inside the list. The page only calls it for rendered entries. A JavaScript write past the end, which would leave holes, is not modelled.
- The file input reset after an upload is not modelled.
- Login, registration, the payment step, the navigation bar's session subscription, the theme toggle, the public profile page, the layout, the footer and the service card are not modelled.

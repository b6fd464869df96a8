# Welly web: a Dafny model of its mappers, links, preview image and admin tables

Welly is a guide to Wellington. Its web front end is a Next.js application. This project models and proves the parts of that front end that decide what is shown:

- **Row mappers** (`src/lib/mappers.ts`). They turn the backend's snake_case rows, which use `null` for missing values, into the view models of `src/lib/types.ts`. Every field is copied under its camelCase name. `null` becomes an absent field, except for an event's price. `mapPost` sorts the caller's media array in place by `sort_order`, then maps it.
- **Deep links and constant tables** (`src/lib/constants.ts`). These are the `wellington://` scheme, the six per-entity link builders, the App Store listing, and the label and colour tables.
- **Preview-image parameters** of `GET /api/og` (`src/app/api/og/route.tsx`). These are the title, subtitle and type with their fallbacks, the colour pair for the type, the title font size and the fixed image size.
- **Admin header and sidebar.** The header's breadcrumb trail comes from the pathname. The sidebar's "active item" rule is an exact match for the dashboard and a prefix match for the sections.
- **Admin tables.** The list filters of the places, trails, events, guides, users, posts and reports tables, and the per-row display rules of the users, posts and reports tables.

The model is written as follows:

- Pure code becomes functions and lemmas.
- `mapPost` changes its argument in place, so it becomes a method over an `array`:
  - It calls a verified in-place stable insertion sort (`StableSort.SortInPlace`).
  - That method is proved against a specification function (`StableSort.Sort`).
  - The properties the source relies on are proved about that function: sorted, a permutation, stable.
  - `SortUnique` shows that any sorted, stable arrangement of the rows equals `StableSort.Sort`. The result therefore does not depend on which stable algorithm the JavaScript engine uses.

Modelling choices (types):

- The backend's `T | null` is `Nullable<T>`. The view model's optional field is `Option<T>`. A field that may be missing as well as null is `Option<Nullable<T>>`.
- Enumerated strings (post type, place category, difficulty, ...) stay `string`, because the mappers only cast them. The enumerations are listed as constants in `Types`.
- Coordinates and prices are `real` and are only copied.
- Case mapping is ASCII. String length is sequence length.
- `includes`, `split`, `join` and `filter` are defined in `Strings` and `Filtering`. Each comes with reference definitions and round-trip lemmas.

## Model

| member | source | states |
|---|---|---|
| Wrappers.NullToAbsent | src/lib/mappers.ts:15 | `x ?? undefined`: the result is absent exactly when the input is null, and otherwise carries the same value |
| Wrappers.AbsentToNull | src/lib/mappers.ts:15 | the inverse of `?? undefined`: mapping its result back with `NullToAbsent` gives the original value |
| Wrappers.NullRoundTrip | src/lib/mappers.ts:15 | turning null into absent and back loses nothing |
| Wrappers.MissingOrNullToAbsent | src/lib/mappers.ts:58-59 | a field that may be missing or null becomes absent in both cases, and otherwise carries its value |
| Strings.Lower | src/components/admin/places/PlacesTable.tsx:42 | `toLowerCase`: length kept, every character lower-cased, and no upper-case letter remains |
| Strings.LowerChar | src/components/admin/places/PlacesTable.tsx:42 | `toLowerCase` on a character: an upper-case letter moves 32 code points to its lower-case letter; anything else is kept; the result is never upper-case |
| Strings.UpperChar | src/components/admin/AdminHeader.tsx:16 | `toUpperCase` on a character: a lower-case letter moves 32 code points to its upper-case letter; anything else is kept; the result is never lower-case |
| Strings.LowerConcat | src/components/admin/places/PlacesTable.tsx:42 | lower-casing distributes over concatenation |
| Strings.Capitalize | src/components/admin/AdminHeader.tsx:16 | `s.charAt(0).toUpperCase() + s.slice(1)`: same length, first character upper-cased, the rest unchanged, and "" stays "" |
| Strings.Includes | src/components/admin/places/PlacesTable.tsx:42 | `includes`: the needle is a prefix of the haystack or of one of its suffixes (see IncludesIffOccurs) |
| Strings.CapitalizeInjective | src/components/admin/events/EventsTable.tsx:76 | strings that do not start with an upper-case letter have different capitalisations when they differ |
| Strings.IncludesIffOccurs | src/components/admin/places/PlacesTable.tsx:42 | `includes` holds exactly when the needle occurs at some index of the haystack (both directions) |
| Strings.IncludesPrefixOfNeedle | src/components/admin/places/PlacesTable.tsx:42 | a haystack that contains `n + m` contains `n` |
| Strings.Split | src/components/admin/AdminHeader.tsx:14 | `split` gives at least one piece, and no piece contains the separator |
| Strings.Join | src/components/admin/AdminHeader.tsx:17 | `join`: the pieces with one separator between neighbours, "" for no pieces (see SplitJoin, JoinSplit) |
| Strings.SplitJoin | src/components/admin/AdminHeader.tsx:14-17 | splitting the join of separator-free pieces gives exactly those pieces back |
| Strings.JoinSplit | src/components/admin/AdminHeader.tsx:14-17 | joining the pieces of a split with the same separator gives the original string back |
| Strings.JoinSnoc | src/components/admin/AdminHeader.tsx:17 | joining one more piece appends the separator and that piece |
| Filtering.Filter | src/components/admin/places/PlacesTable.tsx:41 | `.filter`: the result is no longer than the input, and every kept element satisfies the predicate |
| Filtering.FilterIsSubsequence | src/components/admin/places/PlacesTable.tsx:41 | the result is an order-preserving subsequence of the input |
| Filtering.FilterMembership | src/components/admin/places/PlacesTable.tsx:41-45 | an element is in the result exactly when it is in the input and satisfies the predicate |
| Filtering.FilterCount | src/components/admin/places/PlacesTable.tsx:41-45 | each accepted value occurs in the result as often as in the input, and a rejected one not at all; with FilterIsSubsequence this fixes the result exactly |
| Filtering.FilterKeepsAll | src/components/admin/places/PlacesTable.tsx:41-45 | a predicate every element satisfies keeps the whole input, in order |
| Filtering.FilterAgree | src/components/admin/places/PlacesTable.tsx:41-45 | predicates that agree on the input's elements select the same result |
| Filtering.FilterStricter | src/components/admin/places/PlacesTable.tsx:41-45 | a predicate that implies another selects a subsequence of what the other selects |
| StableSort.InsertLast | src/lib/mappers.ts:46-47 | one insertion step in place: the first i+1 cells become the insertion of cell i into the sorted prefix, and the rest of the array is unchanged |
| StableSort.SortInPlace | src/lib/mappers.ts:46-47 | `.sort((a, b) => a.sort_order - b.sort_order)` in place: the array becomes the stable sort of its old contents, ascending, and a permutation of them |
| StableSort.SortSorted | src/lib/mappers.ts:46-47 | the sorted rows ascend by key |
| StableSort.SortPermutation | src/lib/mappers.ts:46-47 | sorting neither adds, drops nor duplicates a row (multisets equal) |
| StableSort.SortStable | src/lib/mappers.ts:46-47 | rows with equal keys keep their input order |
| StableSort.SortUnique | src/lib/mappers.ts:46-47 | any ascending arrangement that keeps the order among equal keys equals the sort, so every stable sort gives this result |
| Mappers.MapMediaItem | src/lib/mappers.ts:3-21 | the row is recovered from the item (nothing lost, every field in its place), and each nullable field is absent exactly when it was null |
| Mappers.MapMediaItems | src/lib/mappers.ts:48 | `.map(mapMediaItem)`: same length, and item i maps back to row i |
| Mappers.MediaOf | src/lib/mappers.ts:62 | media is absent exactly when there are no rows, never an empty list, and is otherwise the mapped rows |
| Mappers.PostOf | src/lib/mappers.ts:50-63 | every post field is copied; the media URL, thumbnail, width and height are absent exactly when null or missing, and otherwise carry the row's value; media is `MediaOf` the sorted rows |
| Mappers.MapPost | src/lib/mappers.ts:23-64 | sorts the caller's `post_media` array in place so that it equals the stable sort of its old contents, and returns `PostOf` the row and those sorted rows; a missing array gives a post without media |
| Mappers.PostMediaSorted | src/lib/mappers.ts:45-48 | the media of the mapped post ascend by sort order, whatever the input order |
| Mappers.PostMediaPermutation | src/lib/mappers.ts:45-48 | the media are the input rows rearranged: same length, same rows, and the same ids |
| Mappers.PostMediaStable | src/lib/mappers.ts:46-47 | media with equal sort orders keep their input order |
| Mappers.PostMediaAbsent | src/lib/mappers.ts:45-62 | media is absent exactly when `post_media` is missing or empty |
| Mappers.SortIds | src/lib/mappers.ts:46-48 | sorting the rows rearranges their ids |
| Mappers.MediaRowsOfMapped | src/lib/mappers.ts:48 | mapping the media back to rows gives exactly the sorted rows |
| Mappers.PostMediaTwoRowsReordered | src/lib/__tests__/mappers.test.ts:100-128 | two rows given as m2 (order 2) then m1 (order 1) come out as m1 then m2 |
| Mappers.MapEvent | src/lib/mappers.ts:66-92 | the row is recovered from the event; end time, image and ticket URL are absent exactly when null; the price is always present and is kept even when null |
| Mappers.MapPlace | src/lib/mappers.ts:94-110 | the row is recovered from the place |
| Mappers.MapTrail | src/lib/mappers.ts:112-134 | every field copied; highlights pass through when they are a list and are `[]` otherwise |
| Mappers.MapGuide | src/lib/mappers.ts:136-154 | the row is recovered from the guide; description and cover image are absent exactly when null |
| Mappers.PlaceData | src/lib/mappers.ts:178 | the joined place is the object itself or the first list element; there is none exactly for an empty list |
| Mappers.MapGuidePlace | src/lib/mappers.ts:156-185 | the id and sort order are copied, the note is absent exactly when null, and the place maps back to the joined object or the first list element; an empty list throws (`None`) |
| Mappers.MapProfile | src/lib/mappers.ts:187-201 | the row is recovered from the user; bio is absent exactly when null |
| Constants.DeepLink | src/lib/constants.ts:25-27 | the link starts with the scheme, and its path reads back as the given path |
| Constants.PostDeepLink | src/lib/constants.ts:29-31 | `getPostDeepLink`: the deep link of "feed/post/" and the id (see BuilderRoundTrip) |
| Constants.EventDeepLink | src/lib/constants.ts:33-35 | `getEventDeepLink`: the deep link of "events/" and the id |
| Constants.PlaceDeepLink | src/lib/constants.ts:37-39 | `getPlaceDeepLink`: the deep link of "feed/place/" and the id |
| Constants.UserDeepLink | src/lib/constants.ts:41-43 | `getUserDeepLink`: the deep link of "feed/user/" and the id |
| Constants.TrailDeepLink | src/lib/constants.ts:45-47 | `getTrailDeepLink`: the deep link of "map/trail/" and the id |
| Constants.GuideDeepLink | src/lib/constants.ts:49-51 | `getGuideDeepLink`: the deep link of "feed/guide/" and the id |
| Constants.BuildLink | src/lib/constants.ts:29-51 | the six builders as one function of the entity kind (see BuilderUsesTemplate) |
| Constants.ParseEntityLink | src/lib/constants.ts:25-51 | the reading back of a link the builders make: scheme and slash, then the first template that starts the path, then the id (see BuilderRoundTrip, ParseThenBuild) |
| Constants.KindOfBuiltPath | src/lib/constants.ts:29-51 | no builder's template is a prefix of a path made from another template, so the template of a built path is recognised |
| Constants.EntityLinkRoundTrip | src/lib/constants.ts:29-51 | a link made from a kind's template and an id reads back as that kind and id |
| Constants.BuilderUsesTemplate | src/lib/constants.ts:25-51 | each builder's link is the scheme, a slash, the kind's template and the id |
| Constants.BuilderRoundTrip | src/lib/constants.ts:29-51 | every builder's link reads back as exactly the entity it was built for |
| Constants.ParseThenBuild | src/lib/constants.ts:25-51 | every link that reads back as an entity is exactly the link the builder makes for that entity, so parsing loses nothing |
| Constants.LinkShape | src/lib/constants.ts:25-51 | every link starts with the scheme and ends with the id |
| Constants.LinksDistinct | src/lib/constants.ts:29-51 | equal links come from the same builder and the same id: each builder is injective, and kinds never collide |
| Constants.KnownDeepLinks | src/lib/__tests__/constants.test.ts:25-33 | `getDeepLink("some/path")` and `getDeepLink("")` are the expected strings |
| Constants.KnownPostLink | src/lib/__tests__/constants.test.ts:35-39 | the post link for "abc-123" |
| Constants.KnownEventLink | src/lib/__tests__/constants.test.ts:41-45 | the event link for "evt-1" |
| Constants.KnownPlaceLink | src/lib/__tests__/constants.test.ts:47-51 | the place link for "place-1" |
| Constants.KnownUserLink | src/lib/__tests__/constants.test.ts:53-57 | the user link for "user-1" |
| Constants.KnownTrailLink | src/lib/__tests__/constants.test.ts:59-63 | the trail link for "trail-1" |
| Constants.KnownGuideLink | src/lib/__tests__/constants.test.ts:65-69 | the guide link for "guide-1" |
| Constants.AppStoreUrlHasId | src/lib/constants.ts:8-9 | the App Store URL ends with "id" followed by the store id, and so contains the id |
| Constants.TablesCoverEnumerations | src/lib/constants.ts:15-63 | the category labels cover exactly the place categories, the difficulty labels exactly the difficulties, and the colours the same keys as the labels |
| OgImage.QueryOr | src/app/api/og/route.tsx:18-20 | `get(name) \|\| fallback`: a missing or empty parameter gives the fallback, and any other value is kept |
| OgImage.TitleFontSize | src/app/api/og/route.tsx:91 | 36 or 48, and 36 exactly when the title is longer than 60 characters |
| OgImage.GetProperty | src/app/api/og/route.tsx:22 | an object-literal property read finds the own entries, then the names inherited from Object.prototype; only other names are undefined |
| OgImage.ColorsAsWritten | src/app/api/og/route.tsx:22 | `TYPE_COLORS[type] ?? TYPE_COLORS.post` as written: own entry, otherwise the post pair, except that inherited names yield undefined colours |
| OgImage.InheritedNameDefeatsFallback | src/app/api/og/route.tsx:22 | `type=constructor` is drawn with undefined colours instead of the post colours |
| OgImage.Colors | src/app/api/og/route.tsx:9-22 | the colour pair is always one of the table's pairs: the type's own entry, otherwise the post pair; it agrees with the written lookup on every non-inherited name |
| OgImage.SelectPreview | src/app/api/og/route.tsx:18-104 | the image is 1200×630; title, subtitle and type are never empty; the subtitle is always shown; the font tier follows the title length; the colours are `Colors` of the type |
| OgImage.Defaults | src/app/api/og/route.tsx:18-20 | missing or empty parameters become "Welly", "Discover Wellington" and "post" (post colours); given values are kept, and a given type is drawn in `Colors` of that type |
| OgImage.TypeColorsChosen | src/app/api/og/route.tsx:9-22 | a known type gets its own pair, and any other type gets `#FAFAFA` on `#00A5E0` |
| OgImage.FontSizeBoundary | src/app/api/og/route.tsx:91 | a 60-character title is set at 48, a 61-character one at 36 |
| AdminHeader.Segments | src/components/admin/AdminHeader.tsx:14 | `split("/").filter(Boolean)`: every segment is non-empty and contains no "/" |
| AdminHeader.CrumbsOf | src/components/admin/AdminHeader.tsx:15-18 | one crumb per segment; crumb i is named by segment i capitalised and links to "/" followed by segments 0..i joined with "/" |
| AdminHeader.Breadcrumbs | src/components/admin/AdminHeader.tsx:14-18 | as many crumbs as the path has segments; crumb i is named by segment i capitalised and links to "/" followed by segments 0..i joined with "/" |
| AdminHeader.NoCrumbsAtRoot | src/components/admin/AdminHeader.tsx:14 | "", "/" and "//" show no crumbs |
| AdminHeader.CrumbLabel | src/components/admin/AdminHeader.tsx:16 | each crumb's label is its segment with the first character upper-cased and the rest unchanged |
| AdminHeader.FirstCrumbHref | src/components/admin/AdminHeader.tsx:17 | whenever there is a crumb, one-segment paths such as "/admin" included, the first links to "/" and its segment |
| AdminHeader.CrumbHrefsExtend | src/components/admin/AdminHeader.tsx:17 | the first crumb links to "/" and its segment, and each later link extends the previous one by "/" and its own segment |
| AdminHeader.SegmentsOfJoined | src/components/admin/AdminHeader.tsx:14-17 | re-splitting a crumb link gives back exactly the segments joined into it |
| AdminHeader.CrumbLinkReproducesTrail | src/components/admin/AdminHeader.tsx:14-18 | following crumb i's link shows exactly crumbs 0..i again |
| AdminHeader.Shown | src/components/admin/AdminHeader.tsx:35-48 | each crumb is shown with its label; only the last one is plain text, and every other one links to its href |
| AdminHeader.TwoCrumbs | src/components/admin/AdminHeader.tsx:15-18 | the crumbs of a two-segment path link to "/a" and "/a/b" |
| AdminHeader.AdminPlacesCrumbs | src/components/admin/AdminHeader.tsx:15-18 | the segments "admin" and "places" give the crumbs Admin → "/admin" and Places → "/admin/places" |
| AdminHeader.PlacesTrail | src/components/admin/AdminHeader.tsx:14-18 | the path "/admin/places" shows Admin → "/admin", then Places → "/admin/places" |
| AdminSidebar.IsActive | src/components/admin/AdminSidebar.tsx:40-43 | the dashboard (`/admin`) is active on its own path only; every other item when the path starts with its href (see DashboardExactMatch, SectionPrefixMatch) |
| AdminSidebar.DashboardExactMatch | src/components/admin/AdminSidebar.tsx:40-42 | the dashboard is active exactly on "/admin", never on a sub-page |
| AdminSidebar.SectionPrefixMatch | src/components/admin/AdminSidebar.tsx:40-43 | any other item is active exactly when the pathname starts with its href, even without a "/" after it |
| AdminSidebar.SectionLinksIncomparable | src/components/admin/AdminSidebar.tsx:17-26 | no section href is a prefix of another |
| AdminSidebar.AtMostOneActive | src/components/admin/AdminSidebar.tsx:17-43 | no pathname makes two items active |
| AdminSidebar.SubPageActivatesItsSection | src/components/admin/AdminSidebar.tsx:17-43 | any path below a section's href activates that section and nothing else |
| AdminSidebar.PlaceEditorHighlightsPlaces | src/components/admin/AdminSidebar.tsx:20-43 | "/admin/places/<id>/edit" activates Places and only Places |
| TextSearch.Matches | src/components/admin/places/PlacesTable.tsx:42 | `field.toLowerCase().includes(search.toLowerCase())` (see MatchesIffOccurs) |
| TextSearch.EmptyMatches | src/components/admin/places/PlacesTable.tsx:42 | an empty search matches every field |
| TextSearch.MatchesIffOccurs | src/components/admin/places/PlacesTable.tsx:42 | a match means the lower-cased search occurs somewhere in the lower-cased field |
| TextSearch.CaseOfSearchIrrelevant | src/components/admin/places/PlacesTable.tsx:42 | searches that lower-case alike match the same fields |
| TextSearch.LongerSearchMatchesLess | src/components/admin/places/PlacesTable.tsx:42 | a field matching a longer search matches each of its prefixes |
| PlacesTable.CategoryOptionsCoverCategories | src/components/admin/places/PlacesTable.tsx:61-68 | the category selector offers exactly the seven place categories |
| PlacesTable.CategoryOptionLabels | src/components/admin/places/PlacesTable.tsx:62-68 | each option is labelled by its value, capitalised |
| PlacesTable.Keeps | src/components/admin/places/PlacesTable.tsx:41-45 | the row predicate: the name matches the search and the category selector is "all" or the place's own category |
| PlacesTable.Filtered | src/components/admin/places/PlacesTable.tsx:41-45 | the shown rows are an order-preserving subsequence, and a place is shown exactly when its name matches the search and the category is "all" or its own; each shown row appears as many times as in the input |
| PlacesTable.NoFilterKeepsAll | src/components/admin/places/PlacesTable.tsx:42-43 | an empty search with "all" lists every place in order |
| PlacesTable.CategoryRespected | src/components/admin/places/PlacesTable.tsx:43 | a chosen category lists only places of that category |
| PlacesTable.SearchIgnoresCase | src/components/admin/places/PlacesTable.tsx:42 | changing the case of the search leaves the list unchanged |
| PlacesTable.LongerSearchNarrows | src/components/admin/places/PlacesTable.tsx:42 | typing more characters gives a subsequence of the previous list |
| TrailsTable.BadgeVariant | src/components/admin/trails/TrailsTable.tsx:35-39 | easy → secondary, moderate → default, hard → destructive; other difficulties have no variant |
| TrailsTable.DifficultyOptionsCoverDifficulties | src/components/admin/trails/TrailsTable.tsx:67-70 | the selector offers exactly the three difficulties, each labelled by its capitalised value |
| TrailsTable.Keeps | src/components/admin/trails/TrailsTable.tsx:46-51 | the row predicate: the name matches the search and the difficulty selector is "all" or the trail's own difficulty |
| TrailsTable.Filtered | src/components/admin/trails/TrailsTable.tsx:46-51 | order-preserving subsequence, and a trail is shown exactly when its name matches and the difficulty is "all" or its own; each shown row appears as many times as in the input |
| TrailsTable.NoFilterKeepsAll | src/components/admin/trails/TrailsTable.tsx:47-49 | an empty search with "all" lists every trail in order |
| TrailsTable.DifficultyRespected | src/components/admin/trails/TrailsTable.tsx:48-49 | a chosen difficulty lists only trails of that difficulty |
| TrailsTable.SearchIgnoresCase | src/components/admin/trails/TrailsTable.tsx:47 | changing the case of the search leaves the list unchanged |
| TrailsTable.LongerSearchNarrows | src/components/admin/trails/TrailsTable.tsx:47 | typing more characters gives a subsequence of the previous list |
| EventsTable.CategoryValuesAreEventCategories | src/components/admin/events/EventsTable.tsx:35-46 | the options are exactly the ten event categories, each once |
| EventsTable.OptionLabels | src/components/admin/events/EventsTable.tsx:74-78 | every option's label is its value with the first letter upper-cased and the rest unchanged, and no two of the ten options share a label |
| EventsTable.Keeps | src/components/admin/events/EventsTable.tsx:53-57 | the row predicate: the title matches the search and the category selector is "all" or the event's own category |
| EventsTable.Filtered | src/components/admin/events/EventsTable.tsx:53-57 | order-preserving subsequence, and an event is shown exactly when its title matches and the category is "all" or its own; each shown row appears as many times as in the input |
| EventsTable.NoFilterKeepsAll | src/components/admin/events/EventsTable.tsx:54-55 | an empty search with "all" lists every event in order |
| EventsTable.CategoryRespected | src/components/admin/events/EventsTable.tsx:55 | a chosen category lists only events of that category |
| EventsTable.SearchIgnoresCase | src/components/admin/events/EventsTable.tsx:54 | changing the case of the search leaves the list unchanged |
| EventsTable.LongerSearchNarrows | src/components/admin/events/EventsTable.tsx:54 | typing more characters gives a subsequence of the previous list |
| GuidesTable.Keeps | src/components/admin/guides/GuidesTable.tsx:31-33 | the row predicate: the title matches the search |
| GuidesTable.Filtered | src/components/admin/guides/GuidesTable.tsx:31-33 | order-preserving subsequence, and a guide is shown exactly when its title matches the search; each shown row appears as many times as in the input |
| GuidesTable.EmptySearchKeepsAll | src/components/admin/guides/GuidesTable.tsx:32 | an empty search lists every guide in order |
| GuidesTable.SearchIgnoresCase | src/components/admin/guides/GuidesTable.tsx:32 | changing the case of the search leaves the list unchanged |
| GuidesTable.LongerSearchNarrows | src/components/admin/guides/GuidesTable.tsx:32 | typing more characters gives a subsequence of the previous list |
| UsersTable.Keeps | src/components/admin/users/UsersTable.tsx:22-26 | the row predicate: the username or the display name matches the search |
| UsersTable.Filtered | src/components/admin/users/UsersTable.tsx:22-26 | order-preserving subsequence, and a user is shown exactly when the username or the display name matches; each shown row appears as many times as in the input |
| UsersTable.EmptySearchKeepsAll | src/components/admin/users/UsersTable.tsx:24 | an empty search lists every user in order |
| UsersTable.SearchIgnoresCase | src/components/admin/users/UsersTable.tsx:24-25 | changing the case of the search leaves the list unchanged |
| UsersTable.LongerSearchNarrows | src/components/admin/users/UsersTable.tsx:24-25 | typing more characters gives a subsequence of the previous list |
| UsersTable.AvatarFallback | src/components/admin/users/UsersTable.tsx:62 | the display name's first character upper-cased, and empty exactly when the display name is |
| UsersTable.BioText | src/components/admin/users/UsersTable.tsx:70 | the bio, or "—" when there is none |
| PostsTable.Keeps | src/components/admin/posts/PostsTable.tsx:41-46 | the row predicate: the content matches, or a username or place name that is present matches |
| PostsTable.OptionalMatches | src/components/admin/posts/PostsTable.tsx:44-45 | `field?.toLowerCase().includes(...)`: an absent field never matches |
| PostsTable.Filtered | src/components/admin/posts/PostsTable.tsx:41-46 | order-preserving subsequence, and a post is shown exactly when the content, username or place name matches; each shown row appears as many times as in the input |
| PostsTable.AbsentNamesNeverMatch | src/components/admin/posts/PostsTable.tsx:44-45 | without username and place name, only the content decides |
| PostsTable.EmptySearchKeepsAll | src/components/admin/posts/PostsTable.tsx:43 | an empty search lists every post in order, since every content contains "" |
| PostsTable.SearchIgnoresCase | src/components/admin/posts/PostsTable.tsx:43-45 | changing the case of the search leaves the list unchanged |
| PostsTable.LongerSearchNarrows | src/components/admin/posts/PostsTable.tsx:43-45 | typing more characters gives a subsequence of the previous list |
| PostsTable.ContentText | src/components/admin/posts/PostsTable.tsx:80 | the content, or "(no text)" when it is empty; never empty |
| PostsTable.NameText | src/components/admin/posts/PostsTable.tsx:82-83 | the username or place name, or "—" when there is none |
| ReportsTable.PassesSelectors | src/components/admin/reports/ReportsTable.tsx:77-82 | the status selector is "all" or the report's status, and the reason selector is "all" or its reason |
| ReportsTable.SearchHits | src/components/admin/reports/ReportsTable.tsx:83-90 | the search matches the reporter's or the reported username, the details when present, or the reason |
| ReportsTable.KeepsIff | src/components/admin/reports/ReportsTable.tsx:76-93 | a status or reason mismatch drops the report; with an empty search the selectors alone decide; with a non-empty search the report is kept exactly when it passes them and a username, the details or the reason matches |
| ReportsTable.Keeps | src/components/admin/reports/ReportsTable.tsx:76-93 | the row predicate: both selectors pass, and the search is empty or hits (see KeepsIff) |
| ReportsTable.Filtered | src/components/admin/reports/ReportsTable.tsx:76-93 | order-preserving subsequence, and a report is shown exactly when the row predicate accepts it; each shown row appears as many times as in the input |
| ReportsTable.NoFilterKeepsAll | src/components/admin/reports/ReportsTable.tsx:77-93 | an empty search with both selectors on "all" lists every report in order |
| ReportsTable.SearchIgnoresCase | src/components/admin/reports/ReportsTable.tsx:83-90 | changing the case of the search leaves the list unchanged |
| ReportsTable.LongerSearchNarrows | src/components/admin/reports/ReportsTable.tsx:83-90 | typing more characters gives a subsequence of the previous list |
| ReportsTable.ReasonLabel | src/components/admin/reports/ReportsTable.tsx:166 | the table's label (the capitalised reason) for a known reason, and the raw reason otherwise |
| ReportsTable.StatusVariant | src/components/admin/reports/ReportsTable.tsx:169 | the table's variant for a known status, "secondary" otherwise; always one of the three variants |
| ReportsTable.HasContent | src/components/admin/reports/ReportsTable.tsx:202 | `report.contentId` as a condition: present and not empty |
| ReportsTable.CanDeleteContent | src/components/admin/reports/ReportsTable.tsx:202-203 | deleting the content is offered when the report has content and is not about a user |
| ReportsTable.ViewLink | src/components/admin/reports/ReportsTable.tsx:178-193 | "/admin/posts/<contentId>" for a post report with a non-empty contentId, "/admin/users/<reportedUserId>" for a user report, and no link otherwise |
| ReportsTable.ViewAndDeleteActions | src/components/admin/reports/ReportsTable.tsx:178-204 | a user report can be viewed but never offers content deletion; a post report with content offers both; no contentId means no deletion |
| ReportsTable.ViewLinkHighlightsSection | src/components/admin/reports/ReportsTable.tsx:178-193 | following a view link highlights Posts or Users in the sidebar, and nothing else |
| ReportsTable.InitialNotes | src/components/admin/reports/ReportsTable.tsx:95-98 | the review notes start as the report's admin notes, or "" |

## Left out

- Rendering and React state are not modelled: JSX, `useState`, `useActionState`, dialogs, and the form components (TrailForm, EventForm, PlaceForm, GuideForm). Only the values the tables compute are modelled.
- The admin server actions (delete, review, create) are imported but their code is not part of this model.
- Login, the Instagram callback, the open-in-app button, static pages and configuration are left out, because they are I/O, browser navigation or timing.
- The image renderer (`ImageResponse`) is a foreign library, so only the parameters passed to it are modelled. Request parsing is reduced to the three query values, given as parameters.
- `SITE_URL` is left out, because it reads the process environment.
- Unicode is not modelled. `toLowerCase`/`toUpperCase` are modelled on ASCII letters, and string length is sequence length rather than UTF-16 code units.
- Numbers: latitude, longitude and price are opaque `real`s that are only copied. Sort orders are integers, so NaN and fractional orders are not modelled.
- Dates (`toLocaleDateString`) are not modelled.
- Mappers.MapTrail: `highlights` is typed `string[] | unknown`, and `Array.isArray` passes any array through, strings or not. The view model's `seq<string>` cannot hold an array of other values, so the model treats such a value as not a list (`[]`), where the source passes it through.
- Mappers.MapGuidePlace: `mapPlace(undefined)` throws a TypeError on an empty joined list. The model returns `None` for that case instead of an exception.
- Mappers.MapPost: the in-place sort is insertion sort, not the engine's algorithm. `StableSort.SortUnique` shows that every stable sort produces the same array.
- TrailsTable.BadgeVariant, ReportsTable.ReasonLabel and ReportsTable.StatusVariant treat keys inherited from Object.prototype as missing. Their inputs are backend enumerations, unlike the preview image's `type`, which is an arbitrary query value (see Findings).
- The `key` props and CSS classes are not modelled, nor the "No results" rows. They do not change which data is shown.

## Findings

| source | as written | input that shows it | evidently intended | confidence | as-written member | corrected member |
|---|---|---|---|---|---|---|
| src/app/api/og/route.tsx:22 | `TYPE_COLORS[type] ?? TYPE_COLORS.post` reads an object literal with a key taken from the query string. A name inherited from Object.prototype is found there as a function or object, not `undefined`, so `??` keeps it and `colors.bg` and `colors.accent` are `undefined`. | `GET /api/og?type=constructor` (also `toString`, `__proto__`, ...) | an unknown type is drawn with the post colours | not executed | OgImage.ColorsAsWritten, OgImage.InheritedNameDefeatsFallback | OgImage.Colors (used by OgImage.SelectPreview) |

# Front-end logic of the asset inventory, in Dafny

This project models the parts of the inventory front end (a Next.js application) that
hold logic rather than rendering, and proves what they promise.

- **Assets page** (`Fe/app/assets/page.tsx`):
  - **Floor plan.** A location string `"<hall> - <room>"` is read as a building and a
    room. The assets are bucketed by building and then by room. Each room gets its asset
    list, a count per category and a total value. The rooms, and then the buildings, are
    sorted by name.
  - **Move dialog.**
    - Opening it reads an asset's location back into a hall and a room.
    - A room that the chosen hall does not offer is reset to the hall's first room.
    - Submitting composes and validates the new location.
    - The moved or deleted asset is dropped from the room on display.
- **Route guard** (`Fe/middleware.ts`): a three-way decision between redirecting to
  `/login`, redirecting to `/` and passing the request through, plus the matcher that
  keeps static files out of the guard.
- **Token store** (`Fe/lib/auth-storage.ts`):
  - `saveAuth` reads two shapes of login response and writes the tokens and the user
    to `localStorage` and to cookies.
  - `clearAuth` removes them.
  - The getters read them back.
- **Scans list** (`Fe/app/scans/page.tsx`): the case-insensitive search filter, the
  status colour, background and icon mappings, the status badge text, and the "No
  scans found" card.

## Modules

- `wrappers.dfy` (`Wrappers`): `Option`.
- `js_string.dfy` (`JsString`): the JavaScript string operations the pages use.
  - `trim`, with ECMAScript's whitespace set written out.
  - `indexOf` and `includes`.
  - `split` and `join` with a separator.
  - `startsWith`.
  - ASCII `toLowerCase`/`toUpperCase`.
  - A string order standing in for `localeCompare`.
- `seqs.dfy` (`Seqs`):
  - `Array.prototype.filter`.
  - A sum over a list.
  - `sort` by a string key, as an insertion sort.
- `dicts.dfy` (`Dicts`): a JavaScript object used as a dictionary. It is an
  association list in key-insertion order, which is the order `Object.entries` and
  `Object.values` enumerate it in.
- `asset_locations.dfy` (`AssetLocations`):
  - The halls and their rooms.
  - The asset record.
  - `Classify`, the location parse at the top of the grouping loop.
- `asset_groups.dfy` (`AssetGroups`):
  - The grouping loop `GroupByLocation`, a loop over the assets that updates the
    `groups` dictionary, and `BuildingGroups`.
  - The specification function `Grouped`, which folds the loop's turns over a
    placement function `place`.
  - The grouping invariant `GroupsOf`. It is proved for every `place`. The page's
    placement is `Place(a) == Classify(a.location)`, and `BuildingGroups` states its
    result for it.
- `asset_moves.dfy` (`AssetMoves`): the move dialog and the local filters.
  - `OpenMoveDialog` is a `while` loop with `break` over the halls, proved against
    `TargetOf`.
  - The submit is a function of the dialog state and of whether the update request
    succeeds.
- `route_guard.dfy` (`RouteGuard`): the middleware and its matcher.
- `auth_storage.dfy` (`AuthStorage`): the token store. It is the class `AuthStore`,
  whose fields `storage` and `cookies` are maps that `SaveAuth` and `ClearAuth`
  update in place.
- `scans.dfy` (`Scans`): the scans list.

## Model

| member | source | states |
|---|---|---|
| AssetLocations.Classify | Fe/app/assets/page.tsx:87-110 | A location with no `" - "` is its own building (or "Khu vực khác" when empty) with the room "Chưa phân loại". Otherwise, let `i` be the first `" - "`. When the text before `i`, trimmed, is a lecture hall id, the building is that id and the room is the text after the separator, trimmed. Otherwise the building is the whole location and the room is "Chưa phân loại". |
| AssetLocations.ClassifyComposed | Fe/app/assets/page.tsx:92-101 | `"<hall id> - <room>"` is grouped under the hall, in the room with the surrounding whitespace removed. |
| AssetLocations.IndexOfComposed | Fe/app/assets/page.tsx:92-95 | In `"<hall id> - <room>"`, the first separator is the one right after the hall id, because no hall id holds a space. |
| AssetLocations.LectureHallsHaveRooms | Fe/app/assets/page.tsx:17-30 | The lecture halls are exactly the halls with a room list plus `OTHER`, and every room list is non-empty. |
| AssetLocations.CategoryOf | Fe/app/assets/page.tsx:127 | The category counted is never empty. It is the asset's own category when the asset has one, and "Khác" when it has none. |
| AssetGroups.GroupByLocation | Fe/app/assets/page.tsx:84-129 | The `forEach` loop leaves `groups` equal to `Grouped(assets, Place)`, the fold of one turn per asset in input order. |
| AssetGroups.AddToGroups | Fe/app/assets/page.tsx:87-128 | One turn of the loop: find or create the building and the room, push the asset, add its value and count its category. The result is `AddAsset` of the previous `groups`. |
| AssetGroups.LookupAfterAdd | Fe/app/assets/page.tsx:112-128 | One turn changes only the asset's own room. That room becomes its previous summary (or a fresh one) with the asset recorded. |
| AssetGroups.RecordSummarizes | Fe/app/assets/page.tsx:113-128 | Recording an asset in its room's summary, new or existing, keeps it the summary of that room's assets. The summary holds the list in input order, the first asset's location, the sum of the values, and per-category counts that add up to the list length. |
| AssetGroups.RecordCounts | Fe/app/assets/page.tsx:126-127 | Counting one more asset under its category (or "Khác") keeps `categoryCounts` equal to the tallies of the room's assets, summing to their number. |
| AssetGroups.BumpTally | Fe/app/assets/page.tsx:127 | After counting an asset, each category reads as the tally of the previous assets plus the new one. |
| AssetGroups.BumpSum | Fe/app/assets/page.tsx:127 | Counting an asset adds one to the sum of the category counts. |
| AssetGroups.NoCounts | Fe/app/assets/page.tsx:116-120 | A fresh room's empty `categoryCounts` are the counts of no assets. |
| AssetGroups.SizeAfterAdd | Fe/app/assets/page.tsx:112-124 | One turn adds exactly one asset to the sum of all room sizes. |
| AssetGroups.RoomAfterAdd | Fe/app/assets/page.tsx:112-128 | After one turn, every room still summarizes the assets placed at it, and every absent room still has none. |
| AssetGroups.AddAssetKeeps | Fe/app/assets/page.tsx:86-128 | One turn preserves the grouping invariant `GroupsOf`. Under it, no building or room is listed twice, every present room summarizes exactly the assets placed there, no assets are placed at an absent room, and the room sizes add up to the number of assets seen. |
| AssetGroups.NoGroups | Fe/app/assets/page.tsx:84 | The empty `groups` object satisfies the invariant for no assets. |
| AssetGroups.GroupedInvariant | Fe/app/assets/page.tsx:84-129 | After the loop, the grouping invariant holds for the whole input. |
| AssetGroups.GroupedKeys | Fe/app/assets/page.tsx:112-113 | No building, and no room within a building, appears twice. |
| AssetGroups.GroupedRoom | Fe/app/assets/page.tsx:112-128 | Each room entry summarizes the assets placed at its building and room. |
| AssetGroups.GroupedRoomAssets | Fe/app/assets/page.tsx:115-123 | A room entry's `roomName` is its key, and its list is exactly the assets placed there, in input order. |
| AssetGroups.GroupedHas | Fe/app/assets/page.tsx:112-121 | Every placement that some asset has is present in `groups`. |
| AssetGroups.GroupedSize | Fe/app/assets/page.tsx:86-124 | The room sizes add up to the number of assets. |
| AssetGroups.Entries | Fe/app/assets/page.tsx:131-135 | Each building becomes its name with its room summaries sorted by name, one entry per building in order. |
| AssetGroups.FloorPlanBuilding | Fe/app/assets/page.tsx:131-136 | Every building of the floor plan is an entry of `groups`, with its rooms sorted. |
| AssetGroups.FloorPlanRoom | Fe/app/assets/page.tsx:131-136 | Every room shown under a building summarizes the assets placed at that building and room. |
| AssetGroups.FloorPlanRooms | Fe/app/assets/page.tsx:131-136 | The same, for all rooms of all buildings at once. |
| AssetGroups.RoomNamesDistinct | Fe/app/assets/page.tsx:112-121 | The room names within a building differ from each other. |
| AssetGroups.FloorPlanSorted | Fe/app/assets/page.tsx:131-136 | The buildings are in strictly increasing name order, and so are the rooms of each building. |
| AssetGroups.FloorPlanTotal | Fe/app/assets/page.tsx:131-136 | The room lists of the floor plan together hold as many assets as the input. |
| AssetGroups.FloorPlanHasRoom | Fe/app/assets/page.tsx:131-136 | Every room entry of `groups` is shown in its building in the floor plan. |
| AssetGroups.OwnPlacement | Fe/app/assets/page.tsx:86-110 | An asset is among the assets placed at its own placement. |
| AssetGroups.GroupedAsset | Fe/app/assets/page.tsx:112-124 | Every asset is listed in the room entry of its own building and room. |
| AssetGroups.FloorPlanShowsAsset | Fe/app/assets/page.tsx:83-136 | Every asset appears in the floor plan, in the building and room it is placed in. |
| AssetGroups.FloorPlanOnlyOwnRoom | Fe/app/assets/page.tsx:83-136 | An asset listed in a room of the floor plan is placed in exactly that building and room, so it is listed nowhere else. |
| AssetGroups.BuildingGroups | Fe/app/assets/page.tsx:83-138 | `buildingGroups` returns the floor plan of `Classify`. Buildings and the rooms within each are strictly sorted by name. Each room summarizes the assets whose location names it. The room lists together hold every asset. |
| AssetMoves.TargetFrom | Fe/app/assets/page.tsx:176-182 | Scanning the halls from `k`: the first hall whose `"<id> - "` prefix the location carries gives that hall and the rest of the location. No such hall gives `OTHER` and the whole location. |
| AssetMoves.HallPrefixUnique | Fe/app/assets/page.tsx:176-181 | No location carries the prefixes of two different halls. |
| AssetMoves.TargetOf | Fe/app/assets/page.tsx:173-182 | A location with hall `i`'s prefix is read as hall `i` and the rest. A location with no prefix is read as `OTHER` and the whole location. |
| AssetMoves.OpenMoveDialog | Fe/app/assets/page.tsx:169-187 | The `for`/`break` loop opens the dialog on the asset with exactly `TargetOf(location)`. |
| AssetMoves.MoveLocation | Fe/app/assets/page.tsx:203-206 | The composed location is the bare room for `OTHER`. For any other hall it starts with `"<hall> - "`. It always ends with the room. Its round trips are `ComposeThenRead` and `ReadThenCompose`. |
| AssetMoves.ComposeThenRead | Fe/app/assets/page.tsx:173-206 | For a hall with a room list, reading back the composed `"H - R"` gives hall `H` and room `R`. |
| AssetMoves.ReadUnprefixed | Fe/app/assets/page.tsx:173-182 | A location with no `"<id> - "` prefix is read as `OTHER` with the whole location. |
| AssetMoves.ReadThenCompose | Fe/app/assets/page.tsx:173-206 | Reading a location and composing it again gives it back if and only if it does not start with `"OTHER - "`. |
| AssetMoves.ComposeThenClassify | Fe/app/assets/page.tsx:92-101 | A location composed by a move is grouped under the chosen hall, in the chosen room trimmed. |
| AssetMoves.ResetRoom | Fe/app/assets/page.tsx:190-197 | The reset keeps every field but the room. When the dialog is open on a hall with a room list, the room afterwards is one of that hall's rooms. The room changes if and only if the dialog is open, the hall is not `OTHER`, it has a room list, and the room is not in that list. |
| AssetMoves.ResetRoomIdempotent | Fe/app/assets/page.tsx:190-197 | Running the reset twice is running it once. |
| AssetMoves.ResetToFirstRoom | Fe/app/assets/page.tsx:193-195 | A room that was reset is the hall's first room. |
| AssetMoves.BlankMoveIsOther | Fe/app/assets/page.tsx:203-208 | Only the hall `OTHER` with a whitespace-only room composes a blank location. |
| AssetMoves.ComposedNotBlank | Fe/app/assets/page.tsx:204-206 | A location composed for any hall other than `OTHER` contains a `-`, so it is never blank. |
| AssetMoves.SubmitMove | Fe/app/assets/page.tsx:199-230 | Without an asset, or with a blank location (reported as `Rejected`), the page is unchanged and no update is issued. A failed update leaves the page unchanged. Otherwise the asset is moved to the composed location, the dialog is closed and cleared, and the asset is dropped from the selected room. |
| AssetMoves.WithoutAsset | Fe/app/assets/page.tsx:163 | The filter changes only the room's asset list. The name, location, category counts and total are kept as they were. |
| AssetMoves.DropFromSelected | Fe/app/assets/page.tsx:221-226 | The selected room, if there is one, keeps its other assets as an order-preserving subsequence and loses exactly the assets with the id. No room selected stays no room selected. |
| AssetMoves.DeleteAsset | Fe/app/assets/page.tsx:159-166 | Unless the delete is confirmed and succeeds, the selected room is unchanged. A confirmed and successful delete applies `DropFromSelected`: the room keeps exactly its assets with another id. The selected room stays present or absent as it was. |
| AssetMoves.WithoutAssetMembers | Fe/app/assets/page.tsx:222-225 | The filtered list is an order-preserving subsequence of the room's list. It holds exactly the assets with another id. |
| AssetMoves.WithoutAssetCutsOne | Fe/app/assets/page.tsx:222-225 | When only the asset at position `k` has the id, the new list is the old one with exactly that position cut out. |
| AssetMoves.WithoutAbsentAsset | Fe/app/assets/page.tsx:163 | When no asset has the id, the room is unchanged. |
| RouteGuard.IsAuthenticated | Fe/middleware.ts:6-11 | A predicate without a contract: the `auth-token` cookie is present and not empty. What it decides is stated by `RouteGuard.Middleware`, `UnauthenticatedGoesToLogin` and `AuthenticatedLeavesLogin`. |
| RouteGuard.Middleware | Fe/middleware.ts:4-21 | Redirect to `/login` if and only if the request is unauthenticated and not for `/login`. Redirect to `/` if and only if it is authenticated and for `/login`. Pass through in the remaining two cases. |
| RouteGuard.Guard | Fe/middleware.ts:4-25 | A path the matcher excludes always passes. Every redirect goes to `/login` or `/`. |
| RouteGuard.GuardedPages | Fe/middleware.ts:23-25 | `/login` and `/` are both guarded. |
| RouteGuard.UnauthenticatedGoesToLogin | Fe/middleware.ts:6-13 | Without a non-empty `auth-token` cookie, every guarded page but `/login` redirects to `/login`. |
| RouteGuard.AuthenticatedLeavesLogin | Fe/middleware.ts:16-18 | With the cookie, `/login` redirects to `/`. |
| RouteGuard.NoRedirectLoop | Fe/middleware.ts:11-20 | A redirect never targets the page requested, and following it with the same cookie passes through. |
| RouteGuard.ExcludedPrefix | Fe/middleware.ts:24 | A predicate without a contract: the matcher's negative lookahead. It rejects `_next/static`, `_next/image`, and `favicon` followed by any one non-line-terminator character and `ico`. `RouteGuard.StaticPathsPass` proves the consequence. |
| RouteGuard.MatcherApplies | Fe/middleware.ts:23-25 | A predicate without a contract: the anchored matcher. A `/`, then no excluded prefix, then no line terminator. `RouteGuard.GuardedPages` and `RouteGuard.StaticPathsPass` prove what it admits and what it keeps out. |
| RouteGuard.StaticPathsPass | Fe/middleware.ts:23-25 | Paths starting `/_next/static`, `/_next/image` or `/favicon.ico` are never guarded. |
| AuthStorage.TemplateText | Fe/lib/auth-storage.ts:40 | A value in a template literal is written as itself, and a missing one as `undefined`. |
| AuthStorage.CredentialsOf | Fe/lib/auth-storage.ts:13-28 | A truthy flat access token selects the flat shape. Otherwise a present `tokens.access` selects the nested shape, where a missing `tokens.refresh` gives an empty refresh token. A usable access token only comes from one of the two shapes. |
| AuthStorage.ReadCredentials | Fe/lib/auth-storage.ts:13-28 | The locals assigned in the branches are exactly `CredentialsOf(data)`. |
| AuthStorage.FlatShapeFirst | Fe/lib/auth-storage.ts:18-24 | With a truthy flat access token, the nested `tokens` are ignored. |
| AuthStorage.NestedWithoutRefresh | Fe/lib/auth-storage.ts:26 | The nested shape without `tokens.refresh` yields an empty refresh token. |
| AuthStorage.AuthStore.Item | Fe/lib/auth-storage.ts:61-62 | An item is read only with a window, and only when stored; it reads the stored text. |
| AuthStorage.AuthStore.AccessToken | Fe/lib/auth-storage.ts:60-63 | `getAccessToken` is the stored access token, or null without a window or without one. |
| AuthStorage.AuthStore.RefreshToken | Fe/lib/auth-storage.ts:65-68 | `getRefreshToken` is the stored refresh token, or null without a window or without one. |
| AuthStorage.AuthStore.CurrentUser | Fe/lib/auth-storage.ts:70-79 | `getCurrentUser` is the stored user when there is a window and the text is present, non-empty and parses. Otherwise it is null. |
| AuthStorage.AuthStore.AuthCookie | Fe/middleware.ts:6 | The `auth-token` cookie is read when set. |
| AuthStorage.AuthStore.SaveAuth | Fe/lib/auth-storage.ts:7-46 | Without a window or a usable access token, nothing changes. Otherwise the access token is stored, the refresh token only when non-empty, and the user only when present, and nothing else is stored. The `auth-token` cookie is set for a day, and the refresh cookie for a week with whatever the refresh token is. Afterwards `getAccessToken` returns the token, `getRefreshToken` returns the new or the previous one, and the route guard sees the request as authenticated. |
| AuthStorage.AuthStore.ClearAuth | Fe/lib/auth-storage.ts:48-58 | With a window, exactly the three items and the two cookies are removed, and the route guard sees no token. Without one, nothing changes. Either way, every getter then returns null. |
| AuthStorage.ServerSideReadsNothing | Fe/lib/auth-storage.ts:60-79 | Without a window, every getter returns null. |
| Scans.StatusColor | Fe/app/scans/page.tsx:73-82 | A mapping without a contract: green, blue and red text for completed, processing and failed. `Scans.StatusStylesDistinct` proves that the colours differ. |
| Scans.StatusBg | Fe/app/scans/page.tsx:84-93 | A mapping without a contract: green, blue and red backgrounds for completed, processing and failed. `Scans.StatusStylesDistinct` proves that they differ. |
| Scans.StatusIcon | Fe/app/scans/page.tsx:95-104 | A mapping without a contract: a check circle, a spinning clock and an alert circle. `Scans.StatusStylesDistinct` and `Scans.IconInStatusColor` prove that they differ and are drawn in the status colour. |
| Scans.StatusStylesDistinct | Fe/app/scans/page.tsx:73-104 | The colour, background and icon mappings are total. Different statuses get different colours, backgrounds, glyphs and spellings. |
| Scans.IconInStatusColor | Fe/app/scans/page.tsx:95-104 | Each status icon's classes include that status's colour. |
| Scans.StatusLabel | Fe/app/scans/page.tsx:204 | The badge is the status with its first letter upper-cased and the rest unchanged. |
| Scans.StatusLabels | Fe/app/scans/page.tsx:204 | The badges read "Processing", "Completed" and "Failed". |
| Scans.Matches | Fe/app/scans/page.tsx:107-109 | A predicate without a contract: the lower-cased asset name or id includes the lower-cased term. `Scans.FilteredMembers` proves that it decides membership of the filtered list. |
| Scans.FilteredScans | Fe/app/scans/page.tsx:106-110 | The filtered list is never longer than the list. |
| Scans.FilteredIsSubsequence | Fe/app/scans/page.tsx:106-110 | The filtered list is an order-preserving subsequence of the scans. |
| Scans.FilteredMembers | Fe/app/scans/page.tsx:106-110 | A scan is listed if and only if it is in the list and its lower-cased asset name or id contains the lower-cased term. |
| Scans.EmptyTermKeepsAll | Fe/app/scans/page.tsx:106-110 | An empty search term keeps every scan. |
| Scans.TermCaseIgnored | Fe/app/scans/page.tsx:108-109 | Lower-casing the term first does not change the result. |
| Scans.EmptyCardWhenNoMatch | Fe/app/scans/page.tsx:229 | The "No scans found" card is shown if and only if no scan matches. |
| JsString.Trim | Fe/app/assets/page.tsx:96 | `trim` returns an infix of the input with only whitespace around it, itself starting and ending with non-whitespace. It is empty if and only if the input is all whitespace. |
| JsString.TrimOfTrimmed | Fe/app/assets/page.tsx:96 | A string without whitespace at either end is its own trim. |
| JsString.IndexOfFrom | Fe/app/assets/page.tsx:92 | `indexOf` finds the first occurrence at or after the start, or reports that there is none. |
| JsString.ContainsIff | Fe/app/scans/page.tsx:108-109 | `includes` holds if and only if the text occurs somewhere. |
| JsString.ContainsEmpty | Fe/app/scans/page.tsx:108 | Every string includes the empty string. |
| JsString.Split | Fe/app/assets/page.tsx:93 | `split` yields at least one piece. Joining the pieces with the separator gives the input back, and no piece holds the separator. There is one piece if and only if the separator does not occur. Otherwise the first piece ends at the first occurrence, so the pieces are cut left to right. |
| JsString.SplitTailJoin | Fe/app/assets/page.tsx:96-100 | After a first separator at `i`, there are at least two pieces. The first is the text before `i`, and the rest rejoined is everything after the separator. |
| JsString.LowerChar | Fe/app/scans/page.tsx:108 | Lower-casing maps `A`-`Z` to `a`-`z` and leaves every other character alone. |
| JsString.UpperChar | Fe/app/scans/page.tsx:204 | Upper-casing maps `a`-`z` to `A`-`Z` and leaves every other character alone. |
| JsString.ToLower | Fe/app/scans/page.tsx:108 | `toLowerCase` lower-cases each character in place. |
| JsString.ToLowerIdempotent | Fe/app/scans/page.tsx:108-109 | Lower-casing twice is lower-casing once. |
| JsString.Capitalize | Fe/app/scans/page.tsx:204 | The first character is upper-cased and the rest kept. |
| JsString.LessEqReflexive | Fe/app/assets/page.tsx:134-136 | The string order used for sorting is reflexive. |
| JsString.LessEqTotal | Fe/app/assets/page.tsx:134-136 | The string order is total. |
| JsString.LessEqAntisymmetric | Fe/app/assets/page.tsx:134-136 | The string order is antisymmetric. |
| JsString.LessEqTransitive | Fe/app/assets/page.tsx:134-136 | The string order is transitive. |
| Seqs.Filter | Fe/app/scans/page.tsx:106 | `filter` never returns more elements than it is given. |
| Seqs.FilterMembers | Fe/app/scans/page.tsx:106-110 | An element is kept if and only if it is in the input and satisfies the predicate. |
| Seqs.FilterIsSubsequence | Fe/app/scans/page.tsx:106-110 | `filter` returns an order-preserving subsequence of its input. |
| Seqs.FilterKeepsAll | Fe/app/scans/page.tsx:106-110 | A predicate that rejects nothing keeps the input as it is. |
| Seqs.FilterSamePredicate | Fe/app/scans/page.tsx:106-110 | Predicates that agree on every element filter alike. |
| Seqs.InsertBy | Fe/app/assets/page.tsx:131-136 | One insertion step adds exactly the inserted element. |
| Seqs.SortBy | Fe/app/assets/page.tsx:131-136 | Sorting returns a permutation of its input. |
| Seqs.SortByMembers | Fe/app/assets/page.tsx:131-136 | Sorting keeps exactly the elements it was given. |
| Seqs.InsertByStrictlySorted | Fe/app/assets/page.tsx:131-136 | Inserting an element with a new key into a strictly sorted list keeps it strictly sorted. |
| Seqs.SortByStrictlySorted | Fe/app/assets/page.tsx:131-136 | Sorting elements with distinct keys orders them strictly by key. |
| Seqs.SumOfSortBy | Fe/app/assets/page.tsx:131-136 | Sorting does not change a sum over the elements. |
| Dicts.Find | Fe/app/assets/page.tsx:112-113 | Looking a key up finds its first entry, or none when the key is absent. |
| Dicts.Get | Fe/app/assets/page.tsx:112-113 | `d[k]` is undefined if and only if the key is absent. With distinct keys, it is the value of the key's entry. |
| Dicts.Put | Fe/app/assets/page.tsx:112-127 | `d[k] = v` makes `d[k]` read `v` and leaves every other key alone. Every existing key keeps its place, a new key is added last as the entry `(k, v)`, and keys stay distinct. |
| Dicts.Values | Fe/app/assets/page.tsx:135 | `Object.values` lists the values in entry order. |
| Dicts.SumValuesPut | Fe/app/assets/page.tsx:124-127 | Assigning `d[k] = v` changes a sum over the values by what `v` adds and what the replaced value took away. |

## Left out

- Network calls and page-level side effects are not modelled:
  - `getAssets`, `updateAsset`, `deleteAsset` and `loadAssets`.
  - React state scheduling and effects.
  - The `setTimeout` search debounce.
  - `confirm`, `alert` and `console`.

  A request's success is a parameter of `SubmitMove` and `DeleteAsset`.
- The effect that refreshes the selected room from the new floor plan
  (Fe/app/assets/page.tsx:139-153) is not part of this model. Until it runs, the
  locally filtered room keeps its old `categoryCounts` and `totalValue`, as
  `AssetMoves.WithoutAsset` states.
- AssetGroups.FloorPlanSorted: sorting uses the code-point lexicographic order of
  `JsString.LessEq` in place of `localeCompare`. Locale collation rules are not
  modelled; the proofs use only that the order is total. A model string is a sequence
  of Unicode scalar values, not of UTF-16 code units. Above U+FFFF, code-point order
  differs from JavaScript's code-unit order, and string lengths and indices differ as
  well.
- JsString.ToLower: `toLowerCase` and `toUpperCase` are modelled on ASCII letters
  only. Unicode case mapping is not modelled.
- Dicts.Put: JavaScript enumerates integer-like keys before other keys, and the page's
  `{}` objects inherit properties from `Object.prototype`. The dictionary model keeps
  plain insertion order for every key and has no inherited keys. So it does not
  capture what the page does with a building named `toString` or `__proto__`: the
  lookup finds the inherited value, the room is written onto that object, and its
  assets are missing from `Object.entries`. It also does not capture a room named
  `constructor`, whose inherited value has no `assets` list to push to.
- AssetGroups.RecordSummarizes: an asset's value is a whole number, summed exactly.
  The page sums `Number(asset.value || 0)` in floating point, and a non-numeric
  value would give `NaN`.
- AssetLocations.CategoryOf: a missing category or location is the empty string.
  JavaScript's other falsy values are not distinguished.
- AuthStorage.AuthStore.SaveAuth: the user is kept as its JSON text, and "present"
  stands for "truthy". `JSON.stringify` is not modelled. The tokens are strings, and
  other truthy values are not modelled.
- AuthStorage.AuthStore.CurrentUser: whether `JSON.parse` accepts the stored text is
  the parameter `parses`. The parsed object is not modelled.
- AuthStorage.AuthStore.SaveAuth: a cookie is its value and `max-age`. The `path`
  and `SameSite` attributes are not modelled. Expiring a cookie with `Max-Age=0` is
  modelled as removing it. A flat response whose `refreshToken` is `null` writes
  `null` in JavaScript; the model has only "missing", which writes `undefined`.
- RouteGuard.MatcherApplies: the matcher is modelled as the anchored regular
  expression it denotes. How Next.js compiles matcher strings, including its
  handling of `basePath`, locales and `_next/data`, is not modelled.
- The assets page's `getCategoryIcon` and `getStatusColor` and the JSX rendering are
  not modelled.

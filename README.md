# Favorite users: store and page slicer

This project models the two pieces of logic in the favorite-users mobile client.

- **The API client's page slicer** (`src/services/api.ts`). `fetchUsers(page)` takes the full user list from the REST endpoint and gives every user a random badge. It then cuts out the window `[(page-1)*5, page*5)` and returns it as a `PaginatedResponse` together with `total`, `page`, `limit` and `hasMore`.
- **The user store** (`src/store/userStore.ts`). This is one state record: `users`, `favorites`, `loading`, `error`, `currentPage`, `hasMore`, `filters` and `lastFetchTimestamp`. Its actions are fetch, load more, load the cached list, toggle a favourite, merge filters, look up a favourite and clear the error.

Layout:

- `types.dfy`, module `Types`. The records of `src/types/index.ts` (`User`, `Badge`, `PaginatedResponse`, `UserFilters`). `FiltersPatch` stands for a `Partial<UserFilters>` argument. Each of its keys is `Absent` or `Given(value)`, and the value may be undefined (`None`). This matters because the screens clear the badge filter by passing `{ badge: undefined }`, and object spread then overwrites that key. `Erase` compares users on their server fields only, with the badge dropped.
- `api.dfy`, module `Api`. Pure functions. The HTTP result is an input: `None` when the request is rejected, otherwise the list returned. The random badge is also an input: one *roll* per user, which stands for `Math.floor(Math.random() * 4)`.
- `user_store.dfy`, module `Store`. The new values the actions compute are pure functions with lemmas: the filter, the toggle, the find and the spread merge. The store itself is the class `UserStore`, with one field per state key and one method per action. The outside world comes in as parameters: whether the device is online, the HTTP result, the badge rolls, what device storage holds under `cached_users`/`last_fetch_timestamp`, and the clock. When an action writes `cached_users`, it returns what it wrote.

The ghost predicate `UserStore.ShowsPrefixOf(all)` says that, on server fields, `users` is exactly the first `currentPage` pages of the server list `all`. `FetchUsers` establishes it on success. `LoadMoreUsers` preserves it whatever the badges rolled on each request. That is the property "load more" relies on when it appends.

A failed online fetch resets `currentPage` to 1 and then falls back to the cache (src/store/userStore.ts:50, 64-70). On the list the store cached itself, the fallback keeps the pages already shown but turns `hasMore` off (src/store/userStore.ts:119-125), so the next "load more" returns at once (src/store/userStore.ts:76). `Store.RefreshFailureKeepsCachedPages` shows this on a 12-user list. When the fallback finds no stored list or cannot read it (src/store/userStore.ts:108-133), `users` and `hasMore` stay as they were. In that case, if page 2 had already been shown and `hasMore` was still true, the next "load more" appends page 2 a second time. When every page had been loaded, `hasMore` stays false and the next "load more" appends nothing. `Store.RefreshFailureRepeatsPage` runs the repeating sequence: fetch, load more, failed fetch, load more. It ends with 15 entries, of which entries `[10, 15)` repeat entries `[5, 10)`.

Favourites are whole `User` records in an array and are looked up by `id` (src/store/userStore.ts:137-144). After every "load more" the cache receives the whole accumulated list, not only the new page (src/store/userStore.ts:89-92).

## Model

| member | source | states |
|---|---|---|
| `Api.Decorate` | src/services/api.ts:10-27 | each user gets the badge its roll picks from gold/silver/bronze/new; length, order and every other field are kept |
| `Api.Slice` | src/services/api.ts:30 | `slice(start, end)` for `0 <= start <= end`: length clamped to the list, entry i is entry `start + i` |
| `Api.Page` | src/services/api.ts:19-35 | `total` is the list length, `page` echoes the argument, `limit` is 5; `hasMore` iff `page*5 < total`; at most 5 entries, exactly `min(5, total-(page-1)*5)` when that is positive and 0 otherwise; a page past the end is empty with `hasMore` false |
| `Api.PageContents` | src/services/api.ts:19-30 | entry i of page p is entry `(p-1)*5 + i` of the decorated list |
| `Api.PageIsWindow` | src/services/api.ts:19-30 | page k is the entries `[(k-1)*5, k*5)` of the decorated list, clamped to its length |
| `Api.FetchUsers` | src/services/api.ts:16-40 | a rejected request is rethrown (no response); otherwise the response is the page `Api.Page` cuts from the returned list, for the requested page and counting the whole list |
| `Api.PagesArePrefix` | src/services/api.ts:19-30 | pages 1..k concatenated equal the first `min(5k, total)` decorated users |
| `Api.PageEntry` | src/services/api.ts:19-30 | a user on page p has the id of one of the list entries `[(p-1)*5, p*5)` |
| `Api.PagesDisjoint` | src/services/api.ts:19-30 | with distinct ids in the list, two different pages share no id, whatever badges were rolled |
| `Api.PageErased` | src/services/api.ts:19-30 | on server fields, page p is the entries `[(p-1)*5, p*5)` of the returned list, clamped to its length |
| `Api.NextPageExtendsPrefix` | src/store/userStore.ts:86-89 | appending page n+1 to the first n pages (compared on server fields) gives the first n+1 pages |
| `Store.RemoveById` | src/store/userStore.ts:140 | the filter keeps exactly the entries whose id differs; no entry with the id is left; never longer |
| `Store.RemoveByIdAppend` | src/store/userStore.ts:140 | the filter distributes over concatenation, so the survivors keep their order |
| `Store.RemoveAbsentId` | src/store/userStore.ts:140 | filtering out an id no entry has returns the list unchanged |
| `Store.RemoveByIdKeepsDistinct` | src/store/userStore.ts:140 | filtering keeps pairwise distinct ids distinct |
| `Store.ToggleFavorites` | src/store/userStore.ts:136-146 | afterwards the id is a favourite iff it was not before; if absent, `user` is appended and the old list is an unchanged prefix; if present, exactly the entries with other ids remain |
| `Store.ToggleTwiceRestores` | src/store/userStore.ts:137-144 | toggling a user whose id is not a favourite twice gives back the original list |
| `Store.ToggleTwiceMovesToEnd` | src/store/userStore.ts:137-144 | toggling a favourite twice removes every entry with its id and puts `user` last |
| `Store.ToggleKeepsDistinct` | src/store/userStore.ts:136-146 | toggling keeps favourite ids pairwise distinct |
| `Store.FindById` | src/store/userStore.ts:156 | a result exists iff some favourite has the id; it is an entry with that id and no earlier entry has it |
| `Store.MergeFilters` | src/store/userStore.ts:149-153 | each supplied key takes its supplied value (possibly undefined), each key not supplied keeps its value |
| `Store.MergeIntoEmpty` | src/store/userStore.ts:150-152 | merging into `{}` gives exactly the supplied keys |
| `Store.MergeIdempotent` | src/store/userStore.ts:150-152 | applying the same partial filters twice equals applying them once |
| `Store.UserStore.constructor` | src/store/userStore.ts:31-38 | the initial state: empty lists, not loading, no error, page 1, `hasMore`, no filters, no timestamp |
| `Store.UserStore.LoadCachedUsers` | src/store/userStore.ts:108-133 | a stored list replaces `users`, clears `error` and `loading`, sets the stored timestamp and turns `hasMore` off; nothing stored changes nothing; a failed read sets the cache error and clears `loading`; favourites, page and filters never change |
| `Store.UserStore.FetchUsers` | src/store/userStore.ts:40-72 | offline it is exactly the cache load; online success puts page 1 in `users` and in the cache, with `currentPage` 1, no error, not loading, and the prefix invariant established; online failure runs the cache fallback, then ends with `error = 'Failed to fetch users'`, not loading and page 1 whatever the cache held, with `users` unchanged when nothing is cached |
| `Store.UserStore.LoadMoreUsers` | src/store/userStore.ts:74-106 | while loading, with nothing more, offline, or on a failed request the state is untouched and nothing is cached; on success `users` is old `users` followed by the next page (also cached), `currentPage` goes up by 1, `hasMore` comes from the response, not loading; the prefix invariant is preserved |
| `Store.UserStore.ToggleFavorite` | src/store/userStore.ts:135-147 | only `favorites` changes, to the toggled list; membership of the id flips; distinct ids stay distinct |
| `Store.UserStore.FilterUsers` | src/store/userStore.ts:149-153 | only `filters` changes, to the merged filters |
| `Store.UserStore.GetFavoriteById` | src/store/userStore.ts:155-157 | returns the first favourite with the id, or nothing when none has it; changes nothing |
| `Store.UserStore.ClearError` | src/store/userStore.ts:159 | only `error` changes, and it becomes null |
| `Store.RefreshFailureRepeatsPage` | src/store/userStore.ts:40-106 | on 12 users: fetch, load more, a failed fetch whose cache read finds nothing or fails, then load more. The result is 15 entries: the first 10 users, then users `[5, 10)` again, so distinct ids no longer stay distinct |
| `Store.RefreshFailureKeepsCachedPages` | src/store/userStore.ts:40-133 | on 12 users: fetch, load more, a failed fetch whose fallback reads back the list the store cached, then load more. The result is the first 10 users once, with distinct ids kept |

## Left out

- HTTP transport: the axios client, its base URL and `console.error` are network I/O and logging. The request is the input `http`.
- `getUserById` (src/services/api.ts:42-53) is left out. It is one GET plus one badge roll and holds no logic beyond `Decorate` on a single user.
- Random badges: `Math.random` is floating point and nondeterministic. Each roll is an input in `0..3`, so any badge may come out.
- Device effects are parameters of the actions, not modelled services. These are the NetInfo connectivity check, AsyncStorage reads and writes, JSON serialisation and parsing, `parseInt` and `Date.now()`.
- `Date.now()` is read twice per fetch (once for storage, once for the state). The model uses one value, `now`.
- The timestamp written to storage is not returned. `parseInt` producing `NaN` is not modelled: the cache read supplies the parsed timestamp or none.
- A NetInfo check that throws is not modelled. In `fetchUsers` it would reach the error path without first resetting `currentPage`.
- A storage write that throws inside `fetchUsers` or `loadMoreUsers` is not modelled separately. It leaves the same store state as a rejected request, which is modelled. Device storage can differ: if the `cached_users` write succeeds and the `last_fetch_timestamp` write throws, the new list is already stored, while the model reports no cache write.
- Store.UserStore.LoadMoreUsers: the response always comes from `Api.FetchUsers` over an HTTP list. A hand-made response whose fields disagree with its list, such as a mocked one, is outside the model.
- Store.UserStore.FetchUsers: the response comes from `Api.FetchUsers` in the same way, so `hasMore` after a successful fetch is `5 < total`.
- The `persist` middleware and its storage adapter (src/store/userStore.ts:161-175) are library plumbing.
- Concurrency: each action is one atomic step. Two overlapping `loadMoreUsers` calls are not modelled. The `loading` guard is modelled.
- Pages below 1 are excluded by a precondition. They would give negative `slice` indices, which JavaScript counts from the end.
- The second `UserStore` interface in src/types/user.ts (with Set-based favourites, `searchUsers` and `sortUsers`) is only a declaration with no implementation, so it is not modelled.
- All screens, components, theming and the toast context are rendering code and are not modelled.

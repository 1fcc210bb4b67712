# Bookmark client: list synchronisation, add form and row delete

A Dafny model of the client-side logic of a personal bookmark manager built on
a hosted store with a change feed. Three React components hold that logic:

- **BookmarkList** keeps the user's bookmarks in memory with a `loading` flag.
  The list is replaced when a fetch succeeds; a failed fetch leaves it as it
  was. It is changed in place by the store's `postgres_changes` feed: INSERT
  prepends the row, DELETE filters the identifier out, UPDATE maps matching
  rows to the new one, and any other event type changes nothing. The local
  "bookmark-added" signal triggers a re-fetch. The view shows a spinner, an
  empty state, or one item per bookmark.
- **AddBookmarkForm** validates the URL and inserts one trimmed row. On
  success it clears its fields and dispatches "bookmark-added" once.
- **BookmarkItem** shows the row's domain (the hostname with its first "www."
  removed). Its delete button goes through a `deleting` flag.

Files:

- `records.dfy` (module `Records`): the `Bookmark` row, `Option`, the store's
  `Outcome`, and generic sequence facts (`IsSubsequence`, `Pairwise`).
- `bookmark_list.dfy` (module `BookmarkList`): the pure list transforms and
  their lemmas, and the class `ListState` (the `bookmarks` and `loading` cells)
  with one method per input.
- `strings.dfy` (module `Strings`): JavaScript's `indexOf`, first-occurrence
  `replace` with a string pattern, and `trim`.
- `bookmark_item.dfy` (module `BookmarkItem`): `GetDomain` and the class
  `ItemState` (the `deleting` cell).
- `add_bookmark_form.dfy` (module `AddBookmarkForm`): the class `FormState`
  (`title`, `url`, `loading`, `error`, and a count of signals dispatched).

In the form and the row, each `await` splits a handler in two. One method
runs up to the foreign call and returns the request it would issue. A second
method takes the store's answer as an input. `HandleSubmit` composes the two
halves of the form's submit. The list's fetches are modelled by their
completion only: `FetchBookmarks`, `LoadInitialBookmarks` and
`HandleBookmarkAdded` take the finished query's result, and the query itself
(filtered on `userId`, newest first) is store mechanics. The URL parser is a function parameter: `urlParses` says whether
`new URL(u)` returns, and `hostOf` gives the hostname or None where it throws.
Fetch results, feed events, the user's confirmation and store outcomes are
all inputs.

Four things the code does not do:

- INSERT prepends unconditionally. A duplicate delivery, or an INSERT of a row
  a re-fetch already brought in, leaves the identifier twice.
  `InsertKeepsUniqueIff` and `InsertNotIdempotent` state this, and
  `RepeatedInsert` walks through it.
- An inserted row is not placed by `created_at`. The list stays newest-first
  only when the row belongs in front (`InsertKeepsOrderIff`).
- Fetch results are applied in whatever order they complete. There is no
  "latest request wins" guard.
- The form never checks that the title is non-empty. Only the HTML `required`
  attribute does that, and it is outside the handler.

## Model

| member | source | states |
|---|---|---|
| BookmarkList.Prepend | components/BookmarkList.tsx:66-67 | INSERT result: the new row at index 0, the old list after it in order, length one more, identifiers gain the row's |
| BookmarkList.RemoveById | components/BookmarkList.tsx:68-71 | DELETE result: a subsequence of the old list (order kept) holding each row exactly as often as before when its id differs, never when it matches |
| BookmarkList.ReplaceById | components/BookmarkList.tsx:72-79 | UPDATE result: same length; each position holds the new row where the old id matched and the old entry otherwise |
| BookmarkList.Decode | components/BookmarkList.tsx:65-72 | the event-type test: exactly "INSERT", "DELETE" and "UPDATE" select the new row, the old id and the new row; every other string, and only those, is unrecognised |
| BookmarkList.ApplyEvent | components/BookmarkList.tsx:64-81 | the feed handler per event type: INSERT puts the row in front of the old list; DELETE gives a subsequence holding every row as often as before when its id differs and never when it matches; UPDATE keeps the length and puts the new row exactly at the positions whose id matched; any other event type leaves the list unchanged |
| BookmarkList.AfterFetch | components/BookmarkList.tsx:31-35 | a failed fetch keeps the list; a successful one sets it to the data, or to the empty list when the data is null |
| BookmarkList.InsertKeepsUniqueIff | components/BookmarkList.tsx:66-67 | the list after INSERT is duplicate-free iff it was and the row's id was absent (no dedup check) |
| BookmarkList.InsertNotIdempotent | components/BookmarkList.tsx:66-67 | inserting the same row twice differs from inserting it once and leaves a duplicate id |
| BookmarkList.InsertKeepsOrderIff | components/BookmarkList.tsx:66-67 | an INSERT keeps any pairwise order (e.g. newest first) iff the list had it and the row relates to every old entry (no re-sort) |
| BookmarkList.RemoveIds | components/BookmarkList.tsx:69-71 | the identifiers after DELETE are exactly the old ones minus the deleted id |
| BookmarkList.RemoveAbsent | components/BookmarkList.tsx:69-71 | DELETE of an id the list does not hold leaves it unchanged |
| BookmarkList.RemoveIdempotent | components/BookmarkList.tsx:69-71 | DELETE applied twice equals DELETE applied once |
| BookmarkList.RemoveCommutes | components/BookmarkList.tsx:69-71 | two DELETE events give the same list in either order |
| BookmarkList.RemoveKeepsPairwise | components/BookmarkList.tsx:69-71 | DELETE keeps every pairwise relation the list had, so newest-first order and unique ids survive |
| BookmarkList.UpdatePreservesIds | components/BookmarkList.tsx:72-79 | UPDATE neither adds nor removes an identifier |
| BookmarkList.UpdateAbsent | components/BookmarkList.tsx:72-79 | UPDATE of an id the list does not hold leaves it unchanged |
| BookmarkList.UpdateSupersedes | components/BookmarkList.tsx:72-79 | a later UPDATE of the same id overrides an earlier one; UPDATE twice equals once |
| BookmarkList.UpdateKeepsUnique | components/BookmarkList.tsx:72-79 | UPDATE keeps a duplicate-free list duplicate-free |
| BookmarkList.ApplyEventKeepsOwner | components/BookmarkList.tsx:56-81 | with the feed filtered on user_id, every event keeps all rows owned by the subscribing user |
| BookmarkList.DeleteFromMiddle | components/BookmarkList.tsx:68-71 | deleting the middle of three rows leaves the outer two in order |
| BookmarkList.Items | components/BookmarkList.tsx:133-135 | one item per bookmark, in list order, keyed by the bookmark's id |
| BookmarkList.Render | components/BookmarkList.tsx:94-136 | spinner iff loading; empty state iff not loading and the list is empty; otherwise one row per bookmark in order |
| BookmarkList.ListState.View | components/BookmarkList.tsx:94-136 | the component's output for its cells: spinner iff loading, empty state iff not loading with no bookmarks, otherwise the items of the list |
| BookmarkList.ListState.constructor | components/BookmarkList.tsx:20-21 | the list starts empty and loading starts true |
| BookmarkList.ListState.FetchBookmarks | components/BookmarkList.tsx:24-36 | a completed fetch sets the list as AfterFetch says and touches nothing else |
| BookmarkList.ListState.LoadInitialBookmarks | components/BookmarkList.tsx:40-45 | the initial fetch applies its result and then clears loading, error or not |
| BookmarkList.ListState.HandleBookmarkAdded | components/BookmarkList.tsx:48-51 | the signal's re-fetch applies its result and leaves loading as it was |
| BookmarkList.ListState.HandleChange | components/BookmarkList.tsx:64-81 | a feed payload sets the list to ApplyEvent of the old list and the decoded payload; loading unchanged |
| Strings.IndexOf | components/BookmarkItem.tsx:42 | the first index where the pattern occurs, and None iff it occurs nowhere |
| Strings.ReplaceFirst | components/BookmarkItem.tsx:42 | string replace: unchanged without an occurrence, else only the first occurrence swapped for the replacement |
| Strings.Trim | components/AddBookmarkForm.tsx:40-41 | trim: a slice of the input with only whitespace or line terminators outside it, neither end being one |
| Strings.TrimIdempotent | components/AddBookmarkForm.tsx:40-41 | trimming a trimmed string changes nothing |
| BookmarkItem.GetDomain | components/BookmarkItem.tsx:39-46 | an unparseable URL is returned as is; otherwise the hostname with its first "www." removed (re-inserting it at that index gives the hostname back), unchanged without one, never longer |
| BookmarkItem.OnlyFirstWwwRemoved | components/BookmarkItem.tsx:42 | "www.www.example.com" becomes "www.example.com": only the first occurrence goes |
| BookmarkItem.WwwRemovedAnywhere | components/BookmarkItem.tsx:42 | "mywww.site" becomes "mysite": the occurrence need not be a prefix |
| BookmarkItem.ItemState.constructor | components/BookmarkItem.tsx:18 | deleting starts false |
| BookmarkItem.ItemState.HandleDelete | components/BookmarkItem.tsx:21-30 | declining issues no request and keeps deleting; confirming sets deleting and requests deletion of this row's id only |
| BookmarkItem.ItemState.CompleteDelete | components/BookmarkItem.tsx:32-37 | a store error resets deleting to false; success leaves it as it was, and no list is touched |
| BookmarkItem.ItemState.View | components/BookmarkItem.tsx:94-100 | the button is disabled, and shows the spinner, exactly while deleting |
| AddBookmarkForm.FormState.constructor | components/AddBookmarkForm.tsx:15-18 | empty title, url and error; not loading; no signal dispatched |
| AddBookmarkForm.FormState.SetTitle | components/AddBookmarkForm.tsx:83 | the title input sets title |
| AddBookmarkForm.FormState.SetUrl | components/AddBookmarkForm.tsx:101 | the URL input sets url |
| AddBookmarkForm.FormState.Submit | components/AddBookmarkForm.tsx:22-45 | an untrimmed URL that fails to parse gives the validation message, loading false and no request; else error cleared, loading true, and the request is the trimmed title and url with the user's id |
| AddBookmarkForm.FormState.CompleteSubmit | components/AddBookmarkForm.tsx:47-56 | an insert error shows the store's message and keeps the fields and signal count; success clears title and url and dispatches exactly one signal; loading ends false |
| AddBookmarkForm.FormState.HandleSubmit | components/AddBookmarkForm.tsx:22-57 | the whole submit: each of the three endings (invalid URL, store error, success) with its request, error, fields and signal count, and loading false in all |

## Left out

- Store mechanics are not modelled: the query builder, the server-side filter
  and `created_at` descending order of the fetch, channel setup and teardown,
  and reconnection. Fetch results and feed events are inputs. No precondition
  says fetched data is sorted; order facts are stated for any pairwise
  relation instead.
- Concurrency is not modelled. Overlapping fetches, events arriving after
  unmount and the cleanup closure are left out, because the code has no guard
  for them. Each completion method can be called in any order. The model only
  splits the form's and the row's handlers at their `await`, and models the
  list's fetches by their completion.
- A change of `userId` re-runs the effect (components/BookmarkList.tsx:92).
  That is one more `LoadInitialBookmarks` call, during which `loading` stays
  false. Tearing down and re-creating the subscription is left out with the
  store mechanics above. `ListState.userId` stands for the filter both the
  fetch and the feed use.
- What React does with duplicate keys is not modelled. After a repeated
  INSERT, `Render` yields two rows with the same key, and the model stops
  there.
- The `window` event bus is not modelled as a global. Listening is a method
  call on `ListState`, and dispatching is the form's `signals` counter.
- URL parsing (the WHATWG URL Standard) is a function parameter, not a parser.
- `formatDate` is left out, because it rests on `Date` and locale formatting.
- `confirm`, `alert`, `console.*`, JSX markup, styling and the HTML `required`
  attribute are left out. The user's answer to `confirm` is the `confirmed`
  input.
- The page and login components and the logout button are left out. They are
  server-side auth lookups, redirects and a sign-out call, with no logic of
  their own.
- Strings.Trim: JavaScript strings are UTF-16 code units, while the model's
  characters are Unicode scalar values. Every character `trim` removes lies in
  the Basic Multilingual Plane, so a string without surrogates gives the same
  result.
- Strings.ReplaceFirst: replacement patterns such as `$&` are not
  interpreted. The only replacement used is the empty string, which has none.

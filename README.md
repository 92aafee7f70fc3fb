# Tweet feed: fetch normaliser and pagination state, in Dafny

This project models the core of a React Native social-feed client. That core has two parts.

- **`fetchUserTweets`** (`TweetsThunk`) is the thunk that reads the full tweet list. It optionally
  filters the list by the sender's username. It then either fulfils with the list or rejects with a
  `{message, status}` value. The network read is not modelled: what it produced (a response or a
  transport exception) is an input value of type `Transport`.
- **The `tweets` slice** (`TweetsSlice`) is the state record `data`, `displayedData`, `page`,
  `loading`, `error`, `status`. Four reducers change it: `pending`, `fulfilled`, `rejected`, and
  `loadMoreTweets`, which grows a client-side window by 5 tweets per page. Each reducer is a
  function on a `TweetsState` value; the invariants are proved about these functions. The class
  `TweetsStore` holds the same fields and has one method per reducer, which updates the fields in
  place and is proved equal to its function.

The helper module `Decimal` prints an integer in decimal, with no leading zeros and a leading '-'
when negative. For integers of magnitude below 10^21 this is how a JavaScript template literal
prints an integral `number`, which covers every HTTP status. It is used for the `Request error: <status> code` message, and it is proved
invertible. `TweetTypes` holds the tweet, sender, image and comment shapes. `Wrappers` holds `Option`
and `Result`.

Main results:
- Every sequence of actions from `initialState` keeps `displayedData` a prefix of `data`, with
  `|displayedData| == min(|data|, 5 * page)`. This includes overlapping fetches.
- `loadMoreTweets` is a no-op exactly when everything is shown. `k` loads show the first `page + k`
  pages, and `|data|` loads show the whole list.
- The thunk fulfils exactly when the transport answered, the candidate list is non-empty and the
  status is 200. So a fulfilled payload is never empty, and after a successful fetch the window is
  not empty.
- The filter keeps exactly the tweets of the given user, each as often as it occurs, in their
  original order.

- The code checks for an empty list **before** it checks the status code. So an empty list with a
  non-200 status is reported as "No tweets found" (`EmptyListRejectsWhateverStatus`).
- One would expect `error` to be set exactly when the status is FAILED. The `fulfilled` reducer
  never clears `error`, so this holds only while every completion is processed while the state is
  PENDING (`SerialKeepsErrorIffFailed`). Take two overlapping fetches where the first is rejected
  and the second is fulfilled. The state ends SUCCESSFULL with the stale error still set
  (`OverlappingFetchesKeepStaleError`). The race comes from dispatching fetches without a guard.
  It is documented here, not corrected.

## Model

| member | source | states |
|---|---|---|
| `Decimal.NatToString` | src/features/TweetList/state/tweets.thunk.ts:31 | a status prints as at least one decimal digit, with no leading zero except for 0 itself |
| `Decimal.ParseIntToString` | src/features/TweetList/state/tweets.thunk.ts:31 | reading back the printed integer gives the integer, so printing loses nothing |
| `Decimal.IntToStringInjective` | src/features/TweetList/state/tweets.thunk.ts:31 | distinct integers print differently |
| `Decimal.IntToString` | src/features/TweetList/state/tweets.thunk.ts:31 | the printed status is never empty and starts with '-' exactly when the status is negative |
| `TweetsThunk.ExceptionMessage` | src/features/TweetList/state/tweets.thunk.ts:39 | the rejection message is never empty; a present non-empty exception message is kept; a missing or empty one becomes "An error occurred" |
| `TweetsThunk.NoTweetsMessage` | src/features/TweetList/state/tweets.thunk.ts:24 | the message is "No tweets found for user: " followed by the username, which can be read back from it |
| `TweetsThunk.RequestErrorMessage` | src/features/TweetList/state/tweets.thunk.ts:31 | the message is "Request error: ", the printed status, " code"; parsing the middle gives back the status |
| `TweetsThunk.FilterBySender` | src/features/TweetList/state/tweets.thunk.ts:15-17 | the filtered list is no longer than the response; it holds a tweet if and only if the response holds it and its sender's username matches; it is a sub-multiset of the response |
| `TweetsThunk.FilterAppend` | src/features/TweetList/state/tweets.thunk.ts:15-17 | filtering a concatenation is the concatenation of the filtered parts, so kept tweets stay in response order |
| `TweetsThunk.FilterCount` | src/features/TweetList/state/tweets.thunk.ts:15-17 | each tweet occurs in the result as often as in the response if it is by the user, and never otherwise |
| `TweetsThunk.FilterKeepsAllMatching` | src/features/TweetList/state/tweets.thunk.ts:15-17 | a response whose tweets are all by the user passes the filter unchanged |
| `TweetsThunk.FilterNoneMatching` | src/features/TweetList/state/tweets.thunk.ts:15-17 | a response with no tweet by the user filters to the empty list |
| `TweetsThunk.CandidateTweets` | src/features/TweetList/state/tweets.thunk.ts:14-20 | the candidate list holds a tweet if and only if the response holds it and either the filter is empty or the sender matches |
| `TweetsThunk.CandidatesUnfiltered` | src/features/TweetList/state/tweets.thunk.ts:19 | with username "" the candidate list is the response list unchanged |
| `TweetsThunk.CandidatesFiltered` | src/features/TweetList/state/tweets.thunk.ts:14-17 | with a non-empty username the candidate list is the sender filter, counts included |
| `TweetsThunk.FetchUserTweets` | src/features/TweetList/state/tweets.thunk.ts:7-44 | a fulfilled payload is non-empty and holds only tweets of the requested user; a rejection of a received response carries that response's status |
| `TweetsThunk.FulfilsIff` | src/features/TweetList/state/tweets.thunk.ts:22-35 | the thunk fulfils if and only if the transport answered, the candidate list is non-empty and the status is 200; it then fulfils with the candidate list |
| `TweetsThunk.EmptyListRejectsWhateverStatus` | src/features/TweetList/state/tweets.thunk.ts:22-27 | an empty candidate list rejects with "No tweets found for user: " + username and the response status, whatever that status is |
| `TweetsThunk.BadStatusRejects` | src/features/TweetList/state/tweets.thunk.ts:29-34 | a non-empty list with a status other than 200 rejects with "Request error: <status> code" and that status; the message determines the status |
| `TweetsThunk.RequestErrorMessageInjective` | src/features/TweetList/state/tweets.thunk.ts:31 | two statuses with the same request-error message are equal |
| `TweetsThunk.ExceptionRejects` | src/features/TweetList/state/tweets.thunk.ts:36-42 | a transport exception rejects with its message, or "An error occurred" when it has none, and with the status of the attached response, if any |
| `TweetsThunk.MessagesDistinct` | src/features/TweetList/state/tweets.thunk.ts:22-40 | the no-tweets, request-error and fallback messages never coincide |
| `TweetsSlice.SlicePrefix` | src/features/TweetList/state/tweets.slice.ts:34 | `slice(0, end)` gives a prefix: the whole list when end is at or past its length, `end` items when in range, and counting back from the end when negative |
| `TweetsSlice.LoadMore` | src/features/TweetList/state/tweets.slice.ts:27-38 | never changes data, loading, error or status; while some tweets are hidden, advances the page by one and shows a prefix of data of length min(length(data), 5 * (page + 1)) (for page ≥ 0, which the window invariant gives); otherwise leaves the state unchanged |
| `TweetsSlice.OnPending` | src/features/TweetList/state/tweets.slice.ts:41-46 | sets loading, clears error, sets PENDING; data, displayedData and page are untouched |
| `TweetsSlice.OnFulfilled` | src/features/TweetList/state/tweets.slice.ts:47-53 | data becomes the payload, the window its first min(length(payload), 5) tweets, page 1, not loading, SUCCESSFULL; error is untouched |
| `TweetsSlice.OnRejected` | src/features/TweetList/state/tweets.slice.ts:54-58 | not loading, error "Failed to fetch tweets", FAILED; data, displayedData and page are untouched |
| `TweetsSlice.Reduce` | src/features/TweetList/state/tweets.slice.ts:23-60 | only a fulfilment replaces data; pending and rejected leave the window and page alone; every fetch action leaves a non-idle status with loading mirroring PENDING; loading more leaves loading, error and status alone |
| `TweetsSlice.InitialStateHolds` | src/features/TweetList/state/tweets.slice.ts:14-21 | the initial state is empty, on page 1, not loading, without error, IDLE, and satisfies the invariants |
| `TweetsSlice.ReduceKeepsInvariants` | src/features/TweetList/state/tweets.slice.ts:27-58 | every reducer keeps the window invariant and keeps loading equal to the pending status |
| `TweetsSlice.RunKeepsInvariants` | src/features/TweetList/state/tweets.slice.ts:27-58 | any sequence of actions keeps both invariants |
| `TweetsSlice.ReachableStatesKeepInvariants` | src/features/TweetList/state/tweets.slice.ts:14-58 | in every state reachable from the initial state, displayedData is a prefix of data of length min(length(data), 5 * page), and loading holds exactly when the status is PENDING |
| `TweetsSlice.LoadMoreKeepsWindow` | src/features/TweetList/state/tweets.slice.ts:27-38 | loading more keeps the window invariant |
| `TweetsSlice.LoadMoreNoOpIff` | src/features/TweetList/state/tweets.slice.ts:33 | on a consistent state, loading more is a no-op if and only if the whole list is shown |
| `TweetsSlice.LoadMoreTimesIdle` | src/features/TweetList/state/tweets.slice.ts:33 | once everything is shown, any number of further loads leaves the state unchanged |
| `TweetsSlice.LoadMoreTimesWindow` | src/features/TweetList/state/tweets.slice.ts:27-38 | after k loads the window is data's first min(length(data), 5 * (page + k)) tweets, and data, loading, error and status are unchanged |
| `TweetsSlice.FullyRevealed` | src/features/TweetList/state/tweets.slice.ts:27-38 | length(data) loads always show the whole list |
| `TweetsSlice.RejectionDetailDiscarded` | src/features/TweetList/state/tweets.slice.ts:54-58 | the state after `rejected` does not depend on the rejection payload, and its error is the fixed message |
| `TweetsSlice.DataIsLastFulfilled` | src/features/TweetList/state/tweets.slice.ts:47-53 | after any sequence of actions, data is the payload of the last fulfilment processed, or the old data if there was none |
| `TweetsSlice.FetchLifecycle` | src/features/TweetList/state/tweets.slice.ts:41-58 | pending followed by the thunk's outcome gives: on success, a non-empty window that is a prefix of the payload, page 1, no error; on failure, the fixed error, with data, window and page unchanged |
| `TweetsSlice.SerialKeepsErrorIffFailed` | src/features/TweetList/state/tweets.slice.ts:41-58 | when every completion is processed while the state is PENDING, error is set if and only if the status is FAILED |
| `TweetsSlice.OverlappingFetchesKeepStaleError` | src/features/TweetList/state/tweets.slice.ts:47-53 | with two overlapping fetches, rejected and then fulfilled, the status is SUCCESSFULL and the error is still set |
| `TweetsSlice.TweetsStore.constructor` | src/features/TweetList/state/tweets.slice.ts:14-21 | a new store holds the initial state, which is valid |
| `TweetsSlice.TweetsStore.LoadMoreTweets` | src/features/TweetList/state/tweets.slice.ts:27-38 | the in-place update equals `LoadMore` on the old state; data, loading, error and status are unchanged; validity is kept |
| `TweetsSlice.TweetsStore.Pending` | src/features/TweetList/state/tweets.slice.ts:41-46 | the in-place update equals `OnPending`; data, displayedData and page are unchanged; validity is kept |
| `TweetsSlice.TweetsStore.Fulfilled` | src/features/TweetList/state/tweets.slice.ts:47-53 | the in-place update equals `OnFulfilled`; error is unchanged; the new state is valid |
| `TweetsSlice.TweetsStore.Rejected` | src/features/TweetList/state/tweets.slice.ts:54-58 | the in-place update equals `OnRejected`; data, displayedData and page are unchanged; validity is kept |
| `TweetsSlice.TweetsStore.FetchTweets` | src/features/TweetList/state/tweets.thunk.ts:7-44 | one dispatch of the thunk runs pending and then the completion its outcome selects; success leaves a non-empty window, SUCCESSFULL; failure leaves the fixed error, FAILED |

## Left out

- The network read (`getRequest("tweets.json")`, axios, `await`) is not modelled. Its outcome is the `Transport` input: a `Response(status, data)` or a `TransportError(message, responseStatus)`.
- The async lifecycle of `createAsyncThunk` and the interleaving of overlapping fetches are not modelled as concurrency. They appear only as arbitrary sequences of actions (`Run`).
- Redux Toolkit's `createSlice`, Immer drafts and action creators are left out. Each reducer is a direct update of the record's fields.
- The `console.log` in `loadMoreTweets` is left out: it has no effect on the state.
- An untyped response body is not modelled. `data` is a list of tweets. A body that is not an array, or a tweet with a missing `sender` (which the source's `sender?.` tolerates), is not represented.
- The exception that `filter` would throw on a non-array body is not modelled. The source's `catch` would turn it into a rejection with that exception's message.
- Statuses and page numbers are integers. JavaScript numbers that are fractional or non-finite are not modelled.
- Statuses of magnitude 10^21 or more, which JavaScript prints in exponent notation, and integers beyond 2^53, which are not exact JavaScript numbers, are not modelled: `Decimal.IntToString` prints every integer in plain decimal.
- The view `TweetList.tsx`, its tests, the user-profile thunk `user.thunk.ts` and the build configuration are not part of this model.
- The `RequestStatus` enum's own file is not part of this model. Its four values are taken from their uses in the slice.

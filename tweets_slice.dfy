/** The `tweets` slice: the feed's state record and its four transitions.
    The transitions are first given as functions on a `TweetsState` value (the
    specification, about which the invariants are proved), then as the methods
    of `TweetsStore`, which update the record's fields in place the way the
    reducers update their draft state. */
module TweetsSlice {
  import opened Wrappers
  import opened TweetTypes
  import opened TweetsThunk

  /** `RequestStatus`: IDLE, PENDING, SUCCESSFULL, FAILED. */
  datatype RequestStatus = Idle | Pending | Successful | Failed

  datatype TweetsState = TweetsState(
    data: seq<Tweet>,
    displayedData: seq<Tweet>,
    page: int,
    loading: bool,
    error: Option<string>,
    status: RequestStatus)

  const TweetsPerPage := 5
  const FetchFailedMessage := "Failed to fetch tweets"

  const InitialState := TweetsState([], [], 1, false, None, Idle)

  function Min(a: int, b: int): (r: int) {
    if a <= b then a else b
  }

  /** JavaScript's `s.slice(0, end)`: a negative `end` counts back from the end
      of `s`, an `end` past the end stops at the end. */
  function SlicePrefix<T>(s: seq<T>, end: int): (r: seq<T>)
    ensures r <= s
    ensures end >= |s| ==> r == s
    ensures 0 <= end <= |s| ==> |r| == end
    ensures end < 0 ==> |r| == if |s| + end < 0 then 0 else |s| + end
  {
    if end < 0 then s[..if |s| + end < 0 then 0 else |s| + end]
    else s[..Min(end, |s|)]
  }

  // ----- The transitions, as functions on the state -----

  /** `loadMoreTweets`: reveal one more page of the already-fetched list, but
      only while part of it is still hidden. */
  function LoadMore(s: TweetsState): (r: TweetsState)
    ensures r.data == s.data && r.loading == s.loading && r.error == s.error && r.status == s.status
    ensures |s.displayedData| < |s.data| ==>
              r.page == s.page + 1 && r.displayedData <= s.data &&
              (s.page >= 0 ==> |r.displayedData| == Min(|s.data|, TweetsPerPage * (s.page + 1)))
    ensures |s.displayedData| >= |s.data| ==> r == s
  {
    var nextPage := s.page + 1;
    var endIndex := nextPage * TweetsPerPage;
    if |s.displayedData| < |s.data| then
      s.(displayedData := SlicePrefix(s.data, endIndex), page := nextPage)
    else
      s
  }

  /** `fetchUserTweets.pending`: a fetch is in flight; stale data stays shown. */
  function OnPending(s: TweetsState): (r: TweetsState)
    ensures r.loading && r.error == None && r.status == Pending
    ensures r.data == s.data && r.displayedData == s.displayedData && r.page == s.page
  {
    s.(loading := true, error := None, status := Pending)
  }

  /** `fetchUserTweets.fulfilled`: replace the whole list and show its first
      page; the error field is left as it was. */
  function OnFulfilled(s: TweetsState, payload: seq<Tweet>): (r: TweetsState)
    ensures r.data == payload && r.displayedData <= payload
    ensures |r.displayedData| == Min(|payload|, TweetsPerPage)
    ensures r.page == 1 && !r.loading && r.status == Successful && r.error == s.error
  {
    s.(loading := false, data := payload, displayedData := SlicePrefix(payload, 5),
       page := 1, status := Successful)
  }

  /** `fetchUserTweets.rejected`: record a failure with one fixed message; the
      rejection's own message and status are not kept. */
  function OnRejected(s: TweetsState): (r: TweetsState)
    ensures !r.loading && r.error == Some(FetchFailedMessage) && r.status == Failed
    ensures r.data == s.data && r.displayedData == s.displayedData && r.page == s.page
  {
    s.(loading := false, error := Some(FetchFailedMessage), status := Failed)
  }

  /** The actions the slice handles. */
  datatype Action =
    | FetchPending
    | FetchFulfilled(payload: seq<Tweet>)
    | FetchRejected(rejection: Rejection)
    | LoadMoreTweets

  /** The slice's reducer: routes each action to its case.  Only a
      fulfilment replaces the data; the fetch actions settle `loading` to
      mirror the pending status; loading more touches only the window. */
  function Reduce(s: TweetsState, a: Action): (r: TweetsState)
    ensures r.data == if a.FetchFulfilled? then a.payload else s.data
    ensures a.FetchPending? || a.FetchRejected? ==> r.displayedData == s.displayedData && r.page == s.page
    ensures !a.LoadMoreTweets? ==> r.status != Idle && (r.loading <==> r.status == Pending)
    ensures a.LoadMoreTweets? ==> r.loading == s.loading && r.error == s.error && r.status == s.status
  {
    match a
    case FetchPending => OnPending(s)
    case FetchFulfilled(payload) => OnFulfilled(s, payload)
    case FetchRejected(_) => OnRejected(s)
    case LoadMoreTweets => LoadMore(s)
  }

  /** The state after dispatching `actions` in order, in whatever order their
      events arrive (overlapping fetches included). */
  function Run(s: TweetsState, actions: seq<Action>): (r: TweetsState)
    decreases |actions|
  {
    if actions == [] then s
    else Reduce(Run(s, actions[..|actions| - 1]), actions[|actions| - 1])
  }

  /** The action a settled fetch dispatches. */
  function Settle(outcome: Result<seq<Tweet>, Rejection>): (a: Action) {
    match outcome
    case Success(tweets) => FetchFulfilled(tweets)
    case Failure(rejection) => FetchRejected(rejection)
  }

  // ----- Invariants -----

  /** The displayed window is the first `page` pages of the fetched list. */
  predicate WindowInv(s: TweetsState) {
    1 <= s.page &&
    s.displayedData <= s.data &&
    |s.displayedData| == Min(|s.data|, TweetsPerPage * s.page)
  }

  /** `loading` is the legacy mirror of the pending status. */
  predicate LoadingMirrorsPending(s: TweetsState) {
    s.loading <==> s.status == Pending
  }

  predicate ErrorIffFailed(s: TweetsState) {
    s.error.Some? <==> s.status == Failed
  }

  lemma InitialStateHolds()
    ensures InitialState.data == [] && InitialState.displayedData == []
    ensures InitialState.page == 1 && !InitialState.loading
    ensures InitialState.error == None && InitialState.status == Idle
    ensures WindowInv(InitialState) && LoadingMirrorsPending(InitialState) && ErrorIffFailed(InitialState)
  {
  }

  lemma ReduceKeepsInvariants(s: TweetsState, a: Action)
    requires WindowInv(s) && LoadingMirrorsPending(s)
    ensures WindowInv(Reduce(s, a)) && LoadingMirrorsPending(Reduce(s, a))
  {
  }

  /** Every sequence of actions, overlapping fetches included, keeps the window
      a prefix of the data of the length its page number says. */
  lemma {:induction false} RunKeepsInvariants(s: TweetsState, actions: seq<Action>)
    requires WindowInv(s) && LoadingMirrorsPending(s)
    ensures WindowInv(Run(s, actions)) && LoadingMirrorsPending(Run(s, actions))
    decreases |actions|
  {
    if actions != [] {
      RunKeepsInvariants(s, actions[..|actions| - 1]);
      ReduceKeepsInvariants(Run(s, actions[..|actions| - 1]), actions[|actions| - 1]);
    }
  }

  lemma ReachableStatesKeepInvariants(actions: seq<Action>)
    ensures var s := Run(InitialState, actions);
            s.displayedData <= s.data &&
            |s.displayedData| == Min(|s.data|, TweetsPerPage * s.page) &&
            (s.loading <==> s.status == Pending)
  {
    RunKeepsInvariants(InitialState, actions);
  }

  // ----- loadMoreTweets -----

  /** Revealing another page keeps the window a prefix of the data of the
      length the new page number says. */
  lemma LoadMoreKeepsWindow(s: TweetsState)
    requires WindowInv(s)
    ensures WindowInv(LoadMore(s))
  {
  }

  /** On a consistent state, loading more changes nothing exactly when the
      whole list is already shown. */
  lemma LoadMoreNoOpIff(s: TweetsState)
    requires WindowInv(s)
    ensures LoadMore(s) == s <==> s.displayedData == s.data
  {
    if s.displayedData != s.data {
      assert |s.displayedData| < |s.data|;
    }
  }

  function LoadMoreTimes(s: TweetsState, k: nat): (r: TweetsState)
    decreases k
  {
    if k == 0 then s else LoadMoreTimes(LoadMore(s), k - 1)
  }

  /** Once everything is shown, any number of further loads leaves the state as it is. */
  lemma {:induction false} LoadMoreTimesIdle(s: TweetsState, k: nat)
    requires |s.displayedData| >= |s.data|
    ensures LoadMoreTimes(s, k) == s
    decreases k
  {
    if k > 0 {
      LoadMoreTimesIdle(s, k - 1);
    }
  }

  /** After `k` loads the window is the first `page + k` pages of the list
      (all of it, if that is fewer), and nothing but the window and the page
      has changed. */
  lemma {:induction false} LoadMoreTimesWindow(s: TweetsState, k: nat)
    requires WindowInv(s)
    ensures var r := LoadMoreTimes(s, k);
            WindowInv(r) &&
            r.displayedData == s.data[..Min(|s.data|, TweetsPerPage * (s.page + k))] &&
            r.data == s.data && r.loading == s.loading && r.error == s.error && r.status == s.status
    decreases k
  {
    if k > 0 {
      var next := LoadMore(s);
      LoadMoreKeepsWindow(s);
      LoadMoreTimesWindow(next, k - 1);
      if |s.displayedData| >= |s.data| {
        assert next == s;
        assert s.displayedData == s.data[..|s.data|];
      }
    } else {
      assert s.displayedData == s.data[..|s.displayedData|];
    }
  }

  /** `|data|` loads are always enough to show the whole list. */
  lemma FullyRevealed(s: TweetsState, k: nat)
    requires WindowInv(s) && k >= |s.data|
    ensures LoadMoreTimes(s, k).displayedData == s.data
  {
    LoadMoreTimesWindow(s, k);
    assert Min(|s.data|, TweetsPerPage * (s.page + k)) == |s.data|;
  }

  // ----- Fetch completions -----

  /** The rejection's payload makes no difference to the state. */
  lemma RejectionDetailDiscarded(s: TweetsState, a: Rejection, b: Rejection)
    ensures Reduce(s, FetchRejected(a)) == Reduce(s, FetchRejected(b))
    ensures Reduce(s, FetchRejected(a)).error == Some(FetchFailedMessage)
  {
  }

  /** The payload of the last fulfilled action among `actions`, if any. */
  function LastFulfilled(actions: seq<Action>): (r: Option<seq<Tweet>>)
    decreases |actions|
  {
    if actions == [] then None
    else if actions[|actions| - 1].FetchFulfilled? then Some(actions[|actions| - 1].payload)
    else LastFulfilled(actions[..|actions| - 1])
  }

  /** Last writer wins: the data is the payload of the last fulfilment
      processed, whatever order the requests were made in. */
  lemma {:induction false} DataIsLastFulfilled(s: TweetsState, actions: seq<Action>)
    ensures Run(s, actions).data == match LastFulfilled(actions)
                                    case Some(p) => p
                                    case None => s.data
    decreases |actions|
  {
    if actions != [] {
      DataIsLastFulfilled(s, actions[..|actions| - 1]);
    }
  }

  /** A fetch lifecycle: `pending`, then the action the thunk's outcome
      dispatches.  A fulfilled payload is never empty, so a successful fetch
      always leaves something on screen. */
  lemma FetchLifecycle(s: TweetsState, username: string, transport: Transport)
    ensures var r := FetchUserTweets(username, transport);
            var t := Reduce(OnPending(s), Settle(r));
            !t.loading &&
            (r.Success? ==> t.status == Successful && t.error == None && t.data == r.value &&
                            t.displayedData != [] && t.displayedData <= t.data && t.page == 1) &&
            (r.Failure? ==> t.status == Failed && t.error == Some(FetchFailedMessage) &&
                            t.data == s.data && t.displayedData == s.displayedData && t.page == s.page)
  {
  }

  /** Every completion (`fulfilled` or `rejected`) is processed while the
      state is PENDING.  Fetches that never overlap satisfy this; so do some
      that do, as long as no completion lands on a settled state. */
  predicate Serial(s: TweetsState, actions: seq<Action>)
    decreases |actions|
  {
    actions == [] ||
    (Serial(s, actions[..|actions| - 1]) &&
     var last := actions[|actions| - 1];
     (last.FetchFulfilled? || last.FetchRejected?) ==> Run(s, actions[..|actions| - 1]).status == Pending)
  }

  /** When every completion is processed while the state is PENDING, an error
      is present exactly when the status is FAILED. */
  lemma {:induction false} SerialKeepsErrorIffFailed(s: TweetsState, actions: seq<Action>)
    requires ErrorIffFailed(s) && Serial(s, actions)
    ensures ErrorIffFailed(Run(s, actions))
    decreases |actions|
  {
    if actions != [] {
      SerialKeepsErrorIffFailed(s, actions[..|actions| - 1]);
    }
  }

  /** With two overlapping fetches, the first rejected and the second
      fulfilled, the status is SUCCESSFULL while the error of the first stays
      set: `fulfilled` does not clear `error`. */
  lemma OverlappingFetchesKeepStaleError(payload: seq<Tweet>, rejection: Rejection)
    ensures var actions := [FetchPending, FetchPending, FetchRejected(rejection), FetchFulfilled(payload)];
            var t := Run(InitialState, actions);
            !Serial(InitialState, actions) &&
            t.status == Successful && t.error == Some(FetchFailedMessage) && !ErrorIffFailed(t)
  {
    var actions := [FetchPending, FetchPending, FetchRejected(rejection), FetchFulfilled(payload)];
    assert actions[..3][..2][..1][..0] == [];
    assert actions[..3][..2][..1] == [FetchPending];
    assert actions[..3][..2] == [FetchPending, FetchPending];
    assert actions[..3] == [FetchPending, FetchPending, FetchRejected(rejection)];
  }

  // ----- The slice as a mutable record -----

  /** The store's `tweets` record; each method is one reducer and updates the
      fields in place. */
  class TweetsStore {
    var data: seq<Tweet>
    var displayedData: seq<Tweet>
    var page: int
    var loading: bool
    var error: Option<string>
    var status: RequestStatus

    function State(): TweetsState
      reads this
    {
      TweetsState(data, displayedData, page, loading, error, status)
    }

    ghost predicate Valid()
      reads this
    {
      WindowInv(State()) && LoadingMirrorsPending(State())
    }

    /** `initialState`. */
    constructor ()
      ensures State() == InitialState && Valid()
    {
      data, displayedData, page := [], [], 1;
      loading, error, status := false, None, Idle;
    }

    method LoadMoreTweets()
      modifies this
      ensures State() == LoadMore(old(State()))
      ensures data == old(data) && loading == old(loading) && error == old(error) && status == old(status)
      ensures old(Valid()) ==> Valid()
    {
      ghost var before := State();
      var nextPage := page + 1;
      var endIndex := nextPage * TweetsPerPage;
      if |displayedData| < |data| {
        displayedData := SlicePrefix(data, endIndex);
        page := nextPage;
      }
      if WindowInv(before) {
        LoadMoreKeepsWindow(before);
      }
    }

    method Pending()
      modifies this
      ensures State() == OnPending(old(State()))
      ensures data == old(data) && displayedData == old(displayedData) && page == old(page)
      ensures old(Valid()) ==> Valid()
    {
      loading := true;
      error := None;
      status := RequestStatus.Pending;
    }

    method Fulfilled(payload: seq<Tweet>)
      modifies this
      ensures State() == OnFulfilled(old(State()), payload)
      ensures error == old(error)
      ensures Valid()
    {
      loading := false;
      data := payload;
      displayedData := SlicePrefix(payload, 5);
      page := 1;
      status := Successful;
    }

    method Rejected(rejection: Rejection)
      modifies this
      ensures State() == OnRejected(old(State()))
      ensures data == old(data) && displayedData == old(displayedData) && page == old(page)
      ensures old(Valid()) ==> Valid()
    {
      loading := false;
      error := Some(FetchFailedMessage);
      status := Failed;
    }

    /** One `fetchUserTweets(username)` dispatch: `pending`, then `fulfilled`
        or `rejected` according to what the transport produced. */
    method FetchTweets(username: string, transport: Transport)
      modifies this
      ensures State() == Reduce(OnPending(old(State())), Settle(FetchUserTweets(username, transport)))
      ensures FetchUserTweets(username, transport).Success? ==> displayedData != [] && status == Successful
      ensures FetchUserTweets(username, transport).Failure? ==> error == Some(FetchFailedMessage) && status == Failed
      ensures old(Valid()) ==> Valid()
    {
      ghost var before := State();
      Pending();
      var outcome := FetchUserTweets(username, transport);
      match outcome {
        case Success(tweets) => Fulfilled(tweets);
        case Failure(rejection) => Rejected(rejection);
      }
      FetchLifecycle(before, username, transport);
    }
  }

  /** Seven tweets, no filter: the first five are shown, one load shows all
      seven on page 2, a further load changes nothing. */
  method SevenTweetsScenario(tweets: seq<Tweet>)
    requires |tweets| == 7
  {
    var store := new TweetsStore();
    store.FetchTweets("", Responded(Response(200, tweets)));
    assert store.displayedData == tweets[..5] && store.page == 1;
    store.LoadMoreTweets();
    assert store.displayedData == tweets && store.page == 2;
    store.LoadMoreTweets();
    assert store.displayedData == tweets && store.page == 2;
  }

  /** A filter that matches no tweet: the thunk rejects and the state shows
      the fixed failure message, whatever the response status. */
  method NoMatchScenario(tweets: seq<Tweet>, status: int)
    requires forall i :: 0 <= i < |tweets| ==> tweets[i].sender.username != "nobody"
  {
    FilterNoneMatching(tweets, "nobody");
    var store := new TweetsStore();
    store.FetchTweets("nobody", Responded(Response(status, tweets)));
    assert store.error == Some(FetchFailedMessage) && store.status == Failed;
  }
}

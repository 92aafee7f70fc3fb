/** The decision logic of `fetchUserTweets`: given the username filter and what
    the transport produced for `tweets.json` (a response, or an exception), the
    thunk either fulfils with a list of tweets or rejects with `{message, status}`.
    The network read itself is not modelled; its outcome is an input. */
module TweetsThunk {
  import opened Wrappers
  import opened TweetTypes
  import Decimal

  /** The HTTP response of the transport: its status code and decoded body. */
  datatype Response = Response(status: int, data: seq<Tweet>)

  /** A transport exception: its `message` (possibly missing) and the status of
      the response attached to it, when there is one. */
  datatype TransportError = TransportError(message: Option<string>, responseStatus: Option<int>)

  /** What awaiting the request produced. */
  datatype Transport = Responded(response: Response) | Threw(error: TransportError)

  /** The value passed to `rejectWithValue`. */
  datatype Rejection = Rejection(message: string, status: Option<int>)

  const SuccessStatus := 200
  const NoTweetsPrefix := "No tweets found for user: "
  const RequestErrorPrefix := "Request error: "
  const RequestErrorSuffix := " code"
  const ErrorFallback := "An error occurred"

  /** The message when the candidate list is empty; the username can be read
      back from it. */
  function NoTweetsMessage(username: string): (r: string)
    ensures |r| == |NoTweetsPrefix| + |username|
    ensures r[..|NoTweetsPrefix|] == NoTweetsPrefix && r[|NoTweetsPrefix|..] == username
  {
    NoTweetsPrefix + username
  }

  /** The message for a status other than 200; the status can be read back
      from the digits between the fixed prefix and suffix. */
  function RequestErrorMessage(status: int): (r: string)
    ensures |r| > |RequestErrorPrefix| + |RequestErrorSuffix|
    ensures r[..|RequestErrorPrefix|] == RequestErrorPrefix
    ensures r[|r| - |RequestErrorSuffix|..] == RequestErrorSuffix
    ensures Decimal.ParseInt(r[|RequestErrorPrefix|..|r| - |RequestErrorSuffix|]) == Some(status)
  {
    Decimal.ParseIntToString(status);
    var r := RequestErrorPrefix + Decimal.IntToString(status) + RequestErrorSuffix;
    assert r[|RequestErrorPrefix|..|r| - |RequestErrorSuffix|] == Decimal.IntToString(status);
    r
  }

  /** `error.message || 'An error occurred'`: a missing or empty message is
      replaced by the fallback, any other message is kept. */
  function ExceptionMessage(message: Option<string>): (r: string)
    ensures r != ""
    ensures message.Some? && message.value != "" ==> r == message.value
    ensures message.None? || message.value == "" ==> r == ErrorFallback
  {
    if message.Some? && message.value != "" then message.value else ErrorFallback
  }

  predicate SentBy(t: Tweet, username: string) {
    t.sender.username == username
  }

  /** `data.filter(tweet => tweet.sender?.username === username)`. */
  function FilterBySender(data: seq<Tweet>, username: string): (r: seq<Tweet>)
    ensures |r| <= |data|
    ensures forall t :: t in r <==> t in data && SentBy(t, username)
    ensures multiset(r) <= multiset(data)
    decreases |data|
  {
    if data == [] then []
    else
      var rest := FilterBySender(data[1..], username);
      assert data == [data[0]] + data[1..];
      if SentBy(data[0], username) then [data[0]] + rest else rest
  }

  /** The list the thunk goes on to check: everything when the filter is "",
      otherwise only the tweets of `username`. */
  function CandidateTweets(username: string, data: seq<Tweet>): (r: seq<Tweet>)
    ensures forall t :: t in r <==> t in data && (username == "" || SentBy(t, username))
    ensures multiset(r) <= multiset(data)
  {
    if username != "" then FilterBySender(data, username) else data
  }

  /** The body of `fetchUserTweets` after the awaited request.  The empty-list
      check comes before the status check, so an empty list is reported as
      "No tweets found" whatever the status code. */
  function FetchUserTweets(username: string, transport: Transport): (r: Result<seq<Tweet>, Rejection>)
    ensures r.Success? ==> r.value != []
    ensures r.Success? ==> forall t :: t in r.value ==> username == "" || SentBy(t, username)
    ensures r.Failure? && transport.Responded? ==> r.error.status == Some(transport.response.status)
  {
    match transport
    case Threw(e) =>
      Failure(Rejection(ExceptionMessage(e.message), e.responseStatus))
    case Responded(response) =>
      var tweets := CandidateTweets(username, response.data);
      if |tweets| == 0 then
        Failure(Rejection(NoTweetsMessage(username), Some(response.status)))
      else if response.status != SuccessStatus then
        Failure(Rejection(RequestErrorMessage(response.status), Some(response.status)))
      else
        Success(tweets)
  }

  // ----- The filter keeps exactly the matching tweets, in their order -----

  /** Filtering a concatenation filters each part, so the relative order of
      the kept tweets is their order in the response. */
  lemma {:induction false} FilterAppend(a: seq<Tweet>, b: seq<Tweet>, username: string)
    ensures FilterBySender(a + b, username) == FilterBySender(a, username) + FilterBySender(b, username)
    decreases |a|
  {
    if a == [] {
      assert a + b == b;
    } else {
      var ab := a + b;
      assert ab[0] == a[0] && ab[1..] == a[1..] + b;
      FilterAppend(a[1..], b, username);
      var fa, fb := FilterBySender(a[1..], username), FilterBySender(b, username);
      if SentBy(a[0], username) {
        assert FilterBySender(ab, username) == [a[0]] + (fa + fb);
        assert [a[0]] + (fa + fb) == ([a[0]] + fa) + fb;
      } else {
        assert FilterBySender(ab, username) == fa + fb;
      }
    }
  }

  /** Each tweet of the response is kept exactly as often as it occurs when
      it is by `username`, and never otherwise. */
  lemma {:induction false} FilterCount(data: seq<Tweet>, username: string, t: Tweet)
    ensures multiset(FilterBySender(data, username))[t] ==
            if SentBy(t, username) then multiset(data)[t] else 0
    decreases |data|
  {
    if data != [] {
      FilterCount(data[1..], username, t);
      assert data == [data[0]] + data[1..];
    }
  }

  /** A response whose tweets are all by `username` passes the filter unchanged. */
  lemma {:induction false} FilterKeepsAllMatching(data: seq<Tweet>, username: string)
    requires forall i :: 0 <= i < |data| ==> SentBy(data[i], username)
    ensures FilterBySender(data, username) == data
    decreases |data|
  {
    if data != [] {
      FilterKeepsAllMatching(data[1..], username);
    }
  }

  /** A response with no tweet by `username` filters to the empty list. */
  lemma {:induction false} FilterNoneMatching(data: seq<Tweet>, username: string)
    requires forall i :: 0 <= i < |data| ==> !SentBy(data[i], username)
    ensures FilterBySender(data, username) == []
    decreases |data|
  {
    if data != [] {
      FilterNoneMatching(data[1..], username);
    }
  }

  lemma CandidatesUnfiltered(data: seq<Tweet>)
    ensures CandidateTweets("", data) == data
  {
  }

  lemma CandidatesFiltered(data: seq<Tweet>, username: string, t: Tweet)
    requires username != ""
    ensures CandidateTweets(username, data) == FilterBySender(data, username)
    ensures multiset(CandidateTweets(username, data))[t] ==
            if SentBy(t, username) then multiset(data)[t] else 0
  {
    FilterCount(data, username, t);
  }

  // ----- The outcome of a fetch -----

  /** The thunk fulfils exactly when the transport answered, the candidate
      list is non-empty and the status is 200; it then fulfils with that list. */
  lemma FulfilsIff(username: string, transport: Transport)
    ensures FetchUserTweets(username, transport).Success? <==>
            transport.Responded? &&
            CandidateTweets(username, transport.response.data) != [] &&
            transport.response.status == SuccessStatus
    ensures FetchUserTweets(username, transport).Success? ==>
            FetchUserTweets(username, transport).value == CandidateTweets(username, transport.response.data)
  {
  }

  /** An empty candidate list rejects with "No tweets found for user: <username>"
      and the response status, whatever that status is. */
  lemma EmptyListRejectsWhateverStatus(username: string, response: Response)
    requires CandidateTweets(username, response.data) == []
    ensures FetchUserTweets(username, Responded(response)) ==
            Failure(Rejection(NoTweetsPrefix + username, Some(response.status)))
  {
  }

  /** A non-empty list with a status other than 200 rejects with a message
      from which the status can be read back. */
  lemma BadStatusRejects(username: string, response: Response)
    requires CandidateTweets(username, response.data) != []
    requires response.status != SuccessStatus
    ensures var r := FetchUserTweets(username, Responded(response));
            r.Failure? && r.error.status == Some(response.status) &&
            r.error.message == RequestErrorMessage(response.status)
    ensures forall other :: RequestErrorMessage(other) == RequestErrorMessage(response.status) ==>
            other == response.status
  {
    forall other | RequestErrorMessage(other) == RequestErrorMessage(response.status)
      ensures other == response.status
    {
      RequestErrorMessageInjective(other, response.status);
    }
  }

  lemma RequestErrorMessageInjective(a: int, b: int)
    requires RequestErrorMessage(a) == RequestErrorMessage(b)
    ensures a == b
  {
    var ma, mb := RequestErrorMessage(a), RequestErrorMessage(b);
    var n := |RequestErrorPrefix|;
    assert ma[n..|ma| - |RequestErrorSuffix|] == Decimal.IntToString(a);
    assert mb[n..|mb| - |RequestErrorSuffix|] == Decimal.IntToString(b);
    Decimal.IntToStringInjective(a, b);
  }

  /** A transport exception rejects with its own message (or the fallback
      when it has none) and the status of the attached response, if any. */
  lemma ExceptionRejects(username: string, e: TransportError)
    ensures var r := FetchUserTweets(username, Threw(e));
            r.Failure? && r.error.status == e.responseStatus &&
            (e.message.Some? && e.message.value != "" ==> r.error.message == e.message.value) &&
            (e.message == None || e.message == Some("") ==> r.error.message == ErrorFallback)
  {
  }

  /** The three messages the thunk composes itself never coincide. */
  lemma MessagesDistinct(username: string, status: int)
    ensures NoTweetsMessage(username) != RequestErrorMessage(status)
    ensures NoTweetsMessage(username) != ErrorFallback
    ensures RequestErrorMessage(status) != ErrorFallback
  {
    assert NoTweetsMessage(username)[0] == 'N';
    assert RequestErrorMessage(status)[0] == 'R';
    assert ErrorFallback[0] == 'A';
  }
}

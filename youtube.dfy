/**
 * The YouTube chain: a bounded paged search, flattening of the search
 * results, truncation of the video list, collection of comment threads,
 * and the threshold aggregate over their scores.
 */
module YouTube {
  import opened Wrappers
  import opened Model
  import opened Polarity
  import opened PyRandom

  const MaxResultsPerPage: nat := 50
  const MaxPages: nat := 5
  const MaxVideos: nat := 100

  /** A call of the data API either answers or raises `HttpError`. */
  datatype ApiReply<T> = Reply(body: T) | HttpError

  /** The `q` request parameter: the first page sends the target text, later
      pages send the query record itself. */
  datatype QueryParam = QueryText(text: string) | QueryObject(query: TargetQuery)

  datatype SearchParams = SearchParams(
    part: string,
    q: QueryParam,
    maxResults: Option<nat>,
    safeSearch: Option<string>,
    pageToken: Option<string>)

  /** One search hit; a missing `id.videoId` or `snippet.channelId` is `None`. */
  datatype SearchItem = SearchItem(videoId: Option<string>, channelId: Option<string>)

  /** One page of search results (a missing `items` list is the empty list). */
  datatype SearchResponse = SearchResponse(items: seq<SearchItem>, nextPageToken: Option<string>)

  type SearchPair = (Option<string>, Option<string>)

  /** One comment thread: the top-level comment's text and its replies' texts,
      each `None` where the response lacks it. */
  datatype CommentThread = CommentThread(topLevelText: Option<string>, replies: seq<Option<string>>)

  /** One `commentThreads().list` response (a missing `items` list is empty). */
  datatype ThreadResponse = ThreadResponse(threads: seq<CommentThread>)

  // ---------------------------------------------------------------------------
  // Paged search

  function FirstSearchParams(query: TargetQuery): SearchParams {
    SearchParams("snippet", QueryText(query.target), Some(MaxResultsPerPage), Some("none"), None)
  }

  /** The parameters the loop rebuilds after a page with a token. */
  function NextPageParams(query: TargetQuery, token: string): SearchParams {
    SearchParams("snippet", QueryObject(query), None, None, Some(token))
  }

  /** Python truthiness of `response.get("nextPageToken")`. */
  predicate Truthy(token: Option<string>) {
    token.Some? && token.value != ""
  }

  /** The pages collected from `params` on with room for `budget` more: stop
      on `HttpError`, on a page without a token, or when the room runs out. */
  function SearchPages(search: SearchParams -> ApiReply<SearchResponse>, query: TargetQuery,
                       params: SearchParams, budget: nat): (r: seq<SearchResponse>)
    ensures |r| <= budget
    decreases budget
  {
    if budget == 0 then []
    else match search(params)
      case HttpError => []
      case Reply(response) =>
        [response] +
        if Truthy(response.nextPageToken)
        then SearchPages(search, query, NextPageParams(query, response.nextPageToken.value), budget - 1)
        else []
  }

  /** The pages are exactly the chain of answers that follows the tokens: the
      first answers `params`, each later one answers its predecessor's token,
      and the chain ends for one of the three reasons the loop breaks. */
  lemma {:induction false} SearchPagesFollowTokens(search: SearchParams -> ApiReply<SearchResponse>,
                                                  query: TargetQuery, params: SearchParams, budget: nat)
    ensures var r := SearchPages(search, query, params, budget);
      && (|r| > 0 ==> search(params) == Reply(r[0]))
      && (|r| == 0 ==> budget == 0 || search(params).HttpError?)
      && (forall i :: 0 <= i < |r| - 1 ==>
            Truthy(r[i].nextPageToken) &&
            search(NextPageParams(query, r[i].nextPageToken.value)) == Reply(r[i + 1]))
      && (0 < |r| < budget ==>
            !Truthy(r[|r| - 1].nextPageToken) ||
            search(NextPageParams(query, r[|r| - 1].nextPageToken.value)).HttpError?)
    decreases budget
  {
    var r := SearchPages(search, query, params, budget);
    if budget > 0 && search(params).Reply? {
      var response := search(params).body;
      if Truthy(response.nextPageToken) {
        var next := NextPageParams(query, response.nextPageToken.value);
        var tail := SearchPages(search, query, next, budget - 1);
        SearchPagesFollowTokens(search, query, next, budget - 1);
        assert r == [response] + tail;
        forall i | 0 <= i < |r| - 1
          ensures Truthy(r[i].nextPageToken)
          ensures search(NextPageParams(query, r[i].nextPageToken.value)) == Reply(r[i + 1])
        {
          if i > 0 {
            assert r[i] == tail[i - 1] && r[i + 1] == tail[i];
          }
        }
      }
    }
  }

  /** One step of the page chain when the answer carries a token: the page
      joins the collected ones and the chain goes on from the token. */
  lemma ContinueChain(prefix: seq<SearchResponse>, search: SearchParams -> ApiReply<SearchResponse>,
                      query: TargetQuery, params: SearchParams, budget: nat)
    requires budget > 0 && search(params).Reply? && Truthy(search(params).body.nextPageToken)
    ensures prefix + SearchPages(search, query, params, budget) ==
      (prefix + [search(params).body]) +
      SearchPages(search, query, NextPageParams(query, search(params).body.nextPageToken.value), budget - 1)
  {
  }

  /** One step of the page chain when the loop breaks: at most this page is left. */
  lemma StopChain(search: SearchParams -> ApiReply<SearchResponse>,
                  query: TargetQuery, params: SearchParams, budget: nat)
    requires budget > 0 && (search(params).HttpError? || !Truthy(search(params).body.nextPageToken))
    ensures SearchPages(search, query, params, budget) ==
      if search(params).Reply? then [search(params).body] else []
  {
  }

  /** The `while True` page loop of the search extraction. */
  method FetchSearchPages(query: TargetQuery, search: SearchParams -> ApiReply<SearchResponse>)
    returns (responses: seq<SearchResponse>)
    ensures responses == SearchPages(search, query, FirstSearchParams(query), MaxPages)
  {
    ghost var target := SearchPages(search, query, FirstSearchParams(query), MaxPages);
    responses := [];
    var params := FirstSearchParams(query);
    while true
      invariant |responses| <= MaxPages
      invariant responses + SearchPages(search, query, params, MaxPages - |responses|) == target
      decreases MaxPages - |responses|
    {
      var pageToken: Option<string> := None;
      if |responses| >= MaxPages {
        assert SearchPages(search, query, params, 0) == [];
        assert responses + [] == responses;
        break;
      }
      var reply := search(params);
      ghost var before := responses;
      ghost var budget := MaxPages - |responses|;
      if reply.Reply? {
        responses := responses + [reply.body];
        pageToken := reply.body.nextPageToken;
      }
      if Truthy(pageToken) {
        ContinueChain(before, search, query, params, budget);
        params := NextPageParams(query, pageToken.value);
        assert responses + SearchPages(search, query, params, budget - 1) == target;
        assert MaxPages - |responses| == budget - 1;
      } else {
        StopChain(search, query, params, budget);
        assert before + SearchPages(search, query, params, budget) == responses;
        break;
      }
    }
  }

  // ---------------------------------------------------------------------------
  // Flattening the search results

  function ItemPairs(items: seq<SearchItem>): seq<SearchPair> {
    seq(|items|, i requires 0 <= i < |items| => (items[i].videoId, items[i].channelId))
  }

  function ItemCount(responses: seq<SearchResponse>): nat {
    if |responses| == 0 then 0 else |responses[0].items| + ItemCount(responses[1..])
  }

  /** One `(videoId, channelId)` pair per item, page after page. */
  function SearchPairs(responses: seq<SearchResponse>): (r: seq<SearchPair>)
    ensures |r| == ItemCount(responses)
  {
    if |responses| == 0 then [] else ItemPairs(responses[0].items) + SearchPairs(responses[1..])
  }

  /** The pairs of consecutive page runs are the concatenation of their pairs. */
  lemma {:induction false} SearchPairsConcat(a: seq<SearchResponse>, b: seq<SearchResponse>)
    ensures SearchPairs(a + b) == SearchPairs(a) + SearchPairs(b)
  {
    if |a| == 0 {
      assert a + b == b;
    } else {
      assert (a + b)[1..] == a[1..] + b;
      SearchPairsConcat(a[1..], b);
    }
  }

  /** The nested loops that build `search_data`. */
  method FlattenSearchData(responses: seq<SearchResponse>) returns (searchData: seq<SearchPair>)
    ensures searchData == SearchPairs(responses)
  {
    searchData := [];
    for i := 0 to |responses|
      invariant searchData == SearchPairs(responses[..i])
    {
      var items := responses[i].items;
      for j := 0 to |items|
        invariant searchData == SearchPairs(responses[..i]) + ItemPairs(items[..j])
      {
        assert ItemPairs(items[..j + 1]) == ItemPairs(items[..j]) + [(items[j].videoId, items[j].channelId)];
        searchData := searchData + [(items[j].videoId, items[j].channelId)];
      }
      assert items[..|items|] == items;
      assert responses[..i + 1] == responses[..i] + [responses[i]];
      SearchPairsConcat(responses[..i], [responses[i]]);
    }
    assert responses[..|responses|] == responses;
  }

  /** The search extraction: the page loop followed by the flattening. */
  method PerformExtractSearchData(query: TargetQuery, search: SearchParams -> ApiReply<SearchResponse>)
    returns (searchData: seq<SearchPair>)
    ensures searchData == SearchPairs(SearchPages(search, query, FirstSearchParams(query), MaxPages))
    ensures |searchData| == ItemCount(SearchPages(search, query, FirstSearchParams(query), MaxPages))
  {
    var responses := FetchSearchPages(query, search);
    searchData := FlattenSearchData(responses);
  }

  // ---------------------------------------------------------------------------
  // Collecting comment threads

  function FirstComponents(searchData: seq<SearchPair>): seq<Option<string>> {
    seq(|searchData|, i requires 0 <= i < |searchData| => searchData[i].0)
  }

  /** The video ids to query: all first components, or a sample of 100 of them
      when there are more. */
  method SelectVideos(searchData: seq<SearchPair>) returns (videos: seq<Option<string>>)
    ensures IsTruncation(videos, FirstComponents(searchData), MaxVideos)
    ensures |videos| <= MaxVideos
    ensures multiset(videos) <= multiset(FirstComponents(searchData))
  {
    videos := [];
    for i := 0 to |searchData|
      invariant videos == FirstComponents(searchData[..i])
    {
      videos := videos + [searchData[i].0];
    }
    assert searchData[..|searchData|] == searchData;
    if |videos| > MaxVideos {
      var all := videos;
      SampleExists(all, MaxVideos);
      var chosen :| IsSample(chosen, all, MaxVideos);
      assert IsSample(chosen, all, MaxVideos);  // unfolds the choice for the postconditions
      videos := chosen;
    }
  }

  /** What one video's query adds: its answer, or nothing on `HttpError`. */
  function Answered(reply: ApiReply<ThreadResponse>): seq<ThreadResponse> {
    if reply.Reply? then [reply.body] else []
  }

  /** The answers kept from querying each video in turn. */
  function ThreadReplies(threads: Option<string> -> ApiReply<ThreadResponse>,
                         videos: seq<Option<string>>): (r: seq<ThreadResponse>)
    ensures |r| <= |videos|
  {
    if |videos| == 0 then [] else Answered(threads(videos[0])) + ThreadReplies(threads, videos[1..])
  }

  lemma {:induction false} ThreadRepliesConcat(threads: Option<string> -> ApiReply<ThreadResponse>,
                                               a: seq<Option<string>>, b: seq<Option<string>>)
    ensures ThreadReplies(threads, a + b) == ThreadReplies(threads, a) + ThreadReplies(threads, b)
  {
    if |a| == 0 {
      assert a + b == b;
    } else {
      assert (a + b)[1..] == a[1..] + b;
      ThreadRepliesConcat(threads, a[1..], b);
      assert ThreadReplies(threads, a + b) == Answered(threads(a[0])) + ThreadReplies(threads, a[1..] + b);
    }
  }

  /** When every query answers, there is one response per video, in order. */
  lemma {:induction false} ThreadRepliesAllAnswered(threads: Option<string> -> ApiReply<ThreadResponse>,
                                                    videos: seq<Option<string>>)
    requires forall i :: 0 <= i < |videos| ==> threads(videos[i]).Reply?
    ensures |ThreadReplies(threads, videos)| == |videos|
    ensures forall i :: 0 <= i < |videos| ==> ThreadReplies(threads, videos)[i] == threads(videos[i]).body
  {
    if |videos| > 0 {
      ThreadRepliesAllAnswered(threads, videos[1..]);
    }
  }

  method FetchCommentThreads(videos: seq<Option<string>>, threads: Option<string> -> ApiReply<ThreadResponse>)
    returns (items: seq<ThreadResponse>)
    ensures items == ThreadReplies(threads, videos)
  {
    items := [];
    for i := 0 to |videos|
      invariant items == ThreadReplies(threads, videos[..i])
    {
      var reply := threads(videos[i]);
      assert videos[..i + 1] == videos[..i] + [videos[i]];
      ThreadRepliesConcat(threads, videos[..i], [videos[i]]);
      assert ThreadReplies(threads, [videos[i]]) == Answered(reply);
      if reply.Reply? {
        items := items + [reply.body];
      }
    }
    assert videos[..|videos|] == videos;
  }

  /** The comment-thread extraction: truncate the video list, then query each video. */
  method PerformExtractCommentThreadData(searchData: seq<SearchPair>,
                                         threads: Option<string> -> ApiReply<ThreadResponse>)
    returns (items: seq<ThreadResponse>, ghost videos: seq<Option<string>>)
    ensures IsTruncation(videos, FirstComponents(searchData), MaxVideos)
    ensures items == ThreadReplies(threads, videos)
    ensures |items| <= MaxVideos
  {
    var selected := SelectVideos(searchData);
    items := FetchCommentThreads(selected, threads);
    videos := selected;
  }

  // ---------------------------------------------------------------------------
  // Transform: flatten threads into texts and aggregate their scores

  function ReplyTexts(replies: seq<Option<string>>): seq<string> {
    seq(|replies|, i requires 0 <= i < |replies| => replies[i].GetOr(""))
  }

  /** A thread's texts: the top-level comment, then each reply; missing text is "". */
  function ThreadTexts(t: CommentThread): seq<string> {
    [t.topLevelText.GetOr("")] + ReplyTexts(t.replies)
  }

  function ReplyCount(threads: seq<CommentThread>): nat {
    if |threads| == 0 then 0 else |threads[0].replies| + ReplyCount(threads[1..])
  }

  function ThreadsTexts(threads: seq<CommentThread>): (r: seq<string>)
    ensures |r| == |threads| + ReplyCount(threads)
  {
    if |threads| == 0 then [] else ThreadTexts(threads[0]) + ThreadsTexts(threads[1..])
  }

  function ThreadCount(items: seq<ThreadResponse>): nat {
    if |items| == 0 then 0 else |items[0].threads| + ThreadCount(items[1..])
  }

  function ItemsReplyCount(items: seq<ThreadResponse>): nat {
    if |items| == 0 then 0 else ReplyCount(items[0].threads) + ItemsReplyCount(items[1..])
  }

  /** Every text of every thread of every response, in thread order:
      one per top-level comment plus one per reply. */
  function CommentTexts(items: seq<ThreadResponse>): (r: seq<string>)
    ensures |r| == ThreadCount(items) + ItemsReplyCount(items)
  {
    if |items| == 0 then [] else ThreadsTexts(items[0].threads) + CommentTexts(items[1..])
  }

  lemma {:induction false} ThreadsTextsConcat(a: seq<CommentThread>, b: seq<CommentThread>)
    ensures ThreadsTexts(a + b) == ThreadsTexts(a) + ThreadsTexts(b)
  {
    if |a| == 0 {
      assert a + b == b;
    } else {
      assert (a + b)[1..] == a[1..] + b;
      ThreadsTextsConcat(a[1..], b);
    }
  }

  lemma {:induction false} CommentTextsConcat(a: seq<ThreadResponse>, b: seq<ThreadResponse>)
    ensures CommentTexts(a + b) == CommentTexts(a) + CommentTexts(b)
  {
    if |a| == 0 {
      assert a + b == b;
    } else {
      assert (a + b)[1..] == a[1..] + b;
      CommentTextsConcat(a[1..], b);
    }
  }

  /** The guarded percentage: positives over classified scores, 0.0 when no
      score is classified. */
  function Percentage(scores: seq<real>): (r: real)
    ensures 0.0 <= r <= 100.0
    ensures Count(scores, IsClassified) == 0 ==> r == 0.0
  {
    var booleanArray := Flags(scores);
    var trueCount := CountTrue(booleanArray);
    var totalElements := |booleanArray|;
    if totalElements > 0 then
      FractionAtMostOne(trueCount, totalElements);
      (trueCount as real / totalElements as real) * 100.0
    else 0.0
  }

  lemma FractionAtMostOne(t: nat, n: nat)
    requires 0 < n && t <= n
    ensures 0.0 <= t as real / n as real <= 1.0
  {
  }

  /** The percentage is the share of positives among positives and negatives. */
  lemma PercentageIsPositiveShare(scores: seq<real>)
    ensures var pos := Count(scores, IsPositive);
      var neg := Count(scores, IsNegative);
      Percentage(scores) == if pos + neg > 0 then (pos as real / (pos + neg) as real) * 100.0 else 0.0
  {
    var pos, neg := Count(scores, IsPositive), Count(scores, IsNegative);
    var flags := Flags(scores);
    ClassifiedSplits(scores);
    assert |flags| == pos + neg && CountTrue(flags) == pos;
  }

  /** A neutral score changes nothing. */
  lemma PercentageIgnoresNeutral(scores: seq<real>, x: real)
    requires !IsClassified(x)
    ensures Percentage(scores + [x]) == Percentage(scores)
  {
    FlagsConcat(scores, [x]);
    assert Flags([x]) == [] by {
      assert [x][1..] == [];
    }
    assert Flags(scores) + [] == Flags(scores);
  }

  /** The order of the scores does not matter. */
  lemma PercentagePermutation(a: seq<real>, b: seq<real>)
    requires multiset(a) == multiset(b)
    ensures Percentage(a) == Percentage(b)
  {
    CountPermutation(a, b, IsClassified);
    CountPermutation(a, b, IsPositive);
  }

  /** The innermost loop: score a thread's top-level comment, then each reply. */
  method ScoreThread(thread: CommentThread, score: string -> real) returns (data: seq<real>)
    ensures data == Scores(ThreadTexts(thread), score)
  {
    var commentText := thread.topLevelText.GetOr("");
    data := [score(commentText)];
    var replies := thread.replies;
    for k := 0 to |replies|
      invariant data == Scores([commentText] + ReplyTexts(replies[..k]), score)
    {
      var replyText := replies[k].GetOr("");
      assert [commentText] + ReplyTexts(replies[..k + 1]) == [commentText] + ReplyTexts(replies[..k]) + [replyText];
      ScoresSnoc([commentText] + ReplyTexts(replies[..k]), replyText, score);
      data := data + [score(replyText)];
    }
    assert replies[..|replies|] == replies;
  }

  /** The loop over the threads of one response. */
  method ScoreThreads(threads: seq<CommentThread>, score: string -> real) returns (data: seq<real>)
    ensures data == Scores(ThreadsTexts(threads), score)
  {
    data := [];
    for j := 0 to |threads|
      invariant data == Scores(ThreadsTexts(threads[..j]), score)
    {
      var scores := ScoreThread(threads[j], score);
      assert threads[..j + 1] == threads[..j] + [threads[j]];
      ThreadsTextsConcat(threads[..j], [threads[j]]);
      assert ThreadsTexts([threads[j]]) == ThreadTexts(threads[j]);
      ScoresConcat(ThreadsTexts(threads[..j]), ThreadTexts(threads[j]), score);
      data := data + scores;
    }
    assert threads[..|threads|] == threads;
  }

  /** The nested loops of the transform: score every text, then aggregate. */
  method PerformTransformCommentThreadData(items: seq<ThreadResponse>, score: string -> real)
    returns (percentage: real)
    ensures percentage == Percentage(Scores(CommentTexts(items), score))
    ensures 0.0 <= percentage <= 100.0
  {
    var data: seq<real> := [];
    for i := 0 to |items|
      invariant data == Scores(CommentTexts(items[..i]), score)
    {
      var scores := ScoreThreads(items[i].threads, score);
      assert items[..i + 1] == items[..i] + [items[i]];
      CommentTextsConcat(items[..i], [items[i]]);
      assert CommentTexts([items[i]]) == ThreadsTexts(items[i].threads);
      ScoresConcat(CommentTexts(items[..i]), ThreadsTexts(items[i].threads), score);
      data := data + scores;
    }
    assert items[..|items|] == items;
    percentage := Percentage(data);
  }

  /** The tagged transform stage: one (YOUTUBE_SENTIMENT_DATA, Sentiment) pair. */
  method TransformCommentThreadData(items: seq<ThreadResponse>, score: string -> real)
    returns (key: ChainType, sentiment: Sentiment)
    ensures key == YouTubeSentimentData
    ensures sentiment == Sentiment(Percentage(Scores(CommentTexts(items), score)))
  {
    var percentage := PerformTransformCommentThreadData(items, score);
    key, sentiment := YouTubeSentimentData, Sentiment(percentage);
  }
}

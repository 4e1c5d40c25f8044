/**
 * The service's pipeline endpoints: the key-value store every chain ends in,
 * the chains' tagged outputs, the error scan over the node statistics and the
 * join into one combined record, and the single-source reads.
 */
module Endpoint {
  import opened Wrappers
  import opened Model
  import opened PyStrings
  import opened Polarity
  import opened PyRandom
  import opened Multisets
  import YouTube
  import Reddit

  // ---------------------------------------------------------------------------
  // What the chains deliver to the store

  /** A chain either yields one (key, value) pair into `store_results`, or
      one of its nodes raises, which the run records as that node's error. */
  datatype ChainOutcome = Delivered(key: ChainType, value: Value) | Failed(node: string)

  type Store = map<ChainType, Value>

  /** `store_results` on the store's contents: a delivered pair sets its key
      and nothing else changes; a failed chain writes nothing. */
  function Apply(store: Store, o: ChainOutcome): (r: Store)
    ensures o.Delivered? ==> o.key in r && r[o.key] == o.value
    ensures forall k :: k in store ==> k in r
    ensures forall k :: k in r && (o.Failed? || k != o.key) ==> k in store && r[k] == store[k]
  {
    if o.Delivered? then store[o.key := o.value] else store
  }

  /** The store after the outcomes reach it one after another: a run never
      removes a key. */
  function Deliver(store: Store, outcomes: seq<ChainOutcome>): (r: Store)
    ensures forall k :: k in store ==> k in r
    decreases |outcomes|
  {
    if |outcomes| == 0 then store
    else Apply(Deliver(store, outcomes[..|outcomes| - 1]), outcomes[|outcomes| - 1])
  }

  /** The value last delivered under `k`, if any: it comes from a delivery of
      `k` that no later delivery of `k` follows. */
  function LastWrite(outcomes: seq<ChainOutcome>, k: ChainType): (r: Option<Value>)
    ensures r.Some? ==>
      exists i :: 0 <= i < |outcomes| && outcomes[i] == Delivered(k, r.value) &&
                  forall j :: i < j < |outcomes| && outcomes[j].Delivered? ==> outcomes[j].key != k
    ensures r.None? <==> forall i :: 0 <= i < |outcomes| && outcomes[i].Delivered? ==> outcomes[i].key != k
    decreases |outcomes|
  {
    if |outcomes| == 0 then None
    else
      var o := outcomes[|outcomes| - 1];
      if o.Delivered? && o.key == k then Some(o.value)
      else
        var r := LastWrite(outcomes[..|outcomes| - 1], k);
        assert forall i :: 0 <= i < |outcomes| - 1 ==> outcomes[..|outcomes| - 1][i] == outcomes[i];
        r
  }

  /** After a run, a key holds its last delivered value, or what it held
      before when no chain delivered it. */
  lemma {:induction false} DeliverLastWrite(store: Store, outcomes: seq<ChainOutcome>, k: ChainType)
    ensures var after := Deliver(store, outcomes);
      match LastWrite(outcomes, k)
      case Some(v) => k in after && after[k] == v
      case None => (k in after <==> k in store) && (k in store ==> after[k] == store[k])
    decreases |outcomes|
  {
    if |outcomes| > 0 {
      DeliverLastWrite(store, outcomes[..|outcomes| - 1], k);
    }
  }

  /** When a chain is the only one delivering its key, the key ends up holding
      its value whatever the order in which the chains finish. */
  lemma UniqueKeyDelivered(store: Store, outcomes: seq<ChainOutcome>, i: nat)
    requires i < |outcomes| && outcomes[i].Delivered?
    requires forall j :: 0 <= j < |outcomes| && j != i && outcomes[j].Delivered? ==> outcomes[j].key != outcomes[i].key
    ensures outcomes[i].key in Deliver(store, outcomes)
    ensures Deliver(store, outcomes)[outcomes[i].key] == outcomes[i].value
  {
    var k := outcomes[i].key;
    DeliverLastWrite(store, outcomes, k);
    var w := LastWrite(outcomes, k);
    assert outcomes[i] == Delivered(k, outcomes[i].value);
    var j :| 0 <= j < |outcomes| && outcomes[j] == Delivered(k, w.value);
    assert j == i;
  }

  // ---------------------------------------------------------------------------
  // The extract stages' tagging wrappers

  /** Each wrapper yields its endpoint's data under its fixed key, or fails as
      its node when the endpoint raises. */
  function ExtractLogoData<E>(fetched: Result<seq<Logo>, E>): (o: ChainOutcome)
    ensures o.Delivered? <==> fetched.Success?
    ensures o.Delivered? ==> o.key == LogoData && o.value == LogoValue(fetched.value) && WellKinded(o.key, o.value)
  {
    if fetched.Success? then Delivered(LogoData, LogoValue(fetched.value)) else Failed("extract_logo_data")
  }

  function ExtractDescription<E>(fetched: Result<Description, E>): (o: ChainOutcome)
    ensures o.Delivered? <==> fetched.Success?
    ensures o.Delivered? ==> o.key == DescriptionData && o.value == DescriptionValue(fetched.value) && WellKinded(o.key, o.value)
  {
    if fetched.Success? then Delivered(DescriptionData, DescriptionValue(fetched.value)) else Failed("extract_description")
  }

  function ExtractStockInfo<E>(fetched: Result<StockInfo, E>): (o: ChainOutcome)
    ensures o.Delivered? <==> fetched.Success?
    ensures o.Delivered? ==> o.key == StockInfoData && o.value == StockInfoValue(fetched.value) && WellKinded(o.key, o.value)
  {
    if fetched.Success? then Delivered(StockInfoData, StockInfoValue(fetched.value)) else Failed("extract_stock_info")
  }

  function ExtractStockData<E>(fetched: Result<seq<StockData>, E>): (o: ChainOutcome)
    ensures o.Delivered? <==> fetched.Success?
    ensures o.Delivered? ==> o.key == StockPriceData && o.value == StockSeriesValue(fetched.value) && WellKinded(o.key, o.value)
  {
    if fetched.Success? then Delivered(StockPriceData, StockSeriesValue(fetched.value)) else Failed("extract_stock_data")
  }

  /** The YouTube chain: search pages, comment threads of at most 100 videos,
      the guarded percentage. Its oracles answer or give `HttpError`, which
      both loops skip, so in this model the chain always delivers. */
  method RunYouTubeChain(query: TargetQuery,
                         search: YouTube.SearchParams -> YouTube.ApiReply<YouTube.SearchResponse>,
                         threads: Option<string> -> YouTube.ApiReply<YouTube.ThreadResponse>,
                         score: string -> real)
    returns (o: ChainOutcome, ghost videos: seq<Option<string>>)
    ensures IsTruncation(videos, YouTube.FirstComponents(YouTube.SearchPairs(
              YouTube.SearchPages(search, query, YouTube.FirstSearchParams(query), YouTube.MaxPages))), YouTube.MaxVideos)
    ensures o == Delivered(YouTubeSentimentData, SentimentValue(Sentiment(
              YouTube.Percentage(Scores(YouTube.CommentTexts(YouTube.ThreadReplies(threads, videos)), score)))))
    ensures 0.0 <= o.value.sentiment.score <= 100.0
  {
    var searchData := YouTube.PerformExtractSearchData(query, search);
    var items, chosen := YouTube.PerformExtractCommentThreadData(searchData, threads);
    var key, sentiment := YouTube.TransformCommentThreadData(items, score);
    o := Delivered(key, SentimentValue(sentiment));
    videos := chosen;
  }

  /** The Reddit chain: at most 25 submissions, their top-level comment bodies,
      the unguarded percentage. With submission fetches that always answer,
      it fails exactly when no comment is classified. */
  method RunRedditChain(searchData: seq<string>, comments: string -> seq<Reddit.CommentNode>, score: string -> real)
    returns (o: ChainOutcome, ghost ids: seq<string>)
    ensures IsTruncation(ids, searchData, Reddit.MaxSubmissions)
    ensures o.Delivered? <==> Count(Scores(Reddit.SubmissionBodies(ids, comments), score), IsClassified) > 0
    ensures o.Delivered? ==> o == Delivered(RedditSentimentData, SentimentValue(Sentiment(
              YouTube.Percentage(Scores(Reddit.SubmissionBodies(ids, comments), score)))))
    ensures o.Failed? ==> o.node == "reddit_transform_comment_thread_data"
  {
    var commentThreadData, chosen := Reddit.PerformRedditExtractCommentThreadData(searchData, comments);
    var r := Reddit.RedditTransformCommentThreadData(commentThreadData, score);
    if r.Success? {
      o := Delivered(r.value.0, SentimentValue(r.value.1));
    } else {
      o := Failed("reddit_transform_comment_thread_data");
    }
    ids := chosen;
  }

  // ---------------------------------------------------------------------------
  // The error scan over the node statistics

  /** A node of the finished run: its printed name and its statistics line. */
  datatype NodeReport = NodeReport(name: string, stats: string)

  /** Some space-separated field of the statistics contains "err=". */
  predicate NodeFailed(n: NodeReport) {
    AnyContains(Split(n.stats, ' '), "err=")
  }

  /** The field-wise scan finds "err=" exactly when the whole line contains it. */
  lemma NodeFailedIff(n: NodeReport)
    ensures NodeFailed(n) <==> Contains(n.stats, "err=")
  {
    AnyTokenContainsIff(n.stats, ' ', "err=");
  }

  predicate ErrorFree(nodes: seq<NodeReport>) {
    forall i :: 0 <= i < |nodes| ==> !NodeFailed(nodes[i])
  }

  /** The names of the failed nodes, in run order. */
  function FailedNodes(nodes: seq<NodeReport>): (r: seq<string>)
    ensures |r| <= |nodes|
  {
    if |nodes| == 0 then []
    else (if NodeFailed(nodes[0]) then [nodes[0].name] else []) + FailedNodes(nodes[1..])
  }

  /** A name is listed exactly when a node of that name failed. */
  lemma {:induction false} FailedNodesMembership(nodes: seq<NodeReport>, name: string)
    ensures name in FailedNodes(nodes) <==> exists i :: 0 <= i < |nodes| && nodes[i].name == name && NodeFailed(nodes[i])
  {
    if |nodes| > 0 {
      FailedNodesMembership(nodes[1..], name);
      assert forall i :: 1 <= i < |nodes| ==> nodes[1..][i - 1] == nodes[i];
    }
  }

  /** The list is empty exactly when no node failed. */
  lemma {:induction false} FailedNodesEmpty(nodes: seq<NodeReport>)
    ensures |FailedNodes(nodes)| == 0 <==> ErrorFree(nodes)
  {
    if |nodes| > 0 {
      FailedNodesEmpty(nodes[1..]);
      assert forall i :: 1 <= i < |nodes| ==> nodes[1..][i - 1] == nodes[i];
    }
  }

  /** The scan loop that gathers `error_list`. */
  method CollectErrors(nodes: seq<NodeReport>) returns (errorList: seq<string>)
    ensures errorList == FailedNodes(nodes)
  {
    errorList := [];
    for i := 0 to |nodes|
      invariant errorList == FailedNodes(nodes[..i])
    {
      var node := nodes[i];
      var statArray := Split(node.stats, ' ');
      if AnyContains(statArray, "err=") {
        errorList := errorList + [node.name];
      }
      FailedNodesSnoc(nodes[..i], node);
      assert nodes[..i + 1] == nodes[..i] + [node];
    }
    assert nodes[..|nodes|] == nodes;
  }

  lemma {:induction false} FailedNodesSnoc(nodes: seq<NodeReport>, n: NodeReport)
    ensures FailedNodes(nodes + [n]) == FailedNodes(nodes) + (if NodeFailed(n) then [n.name] else [])
    decreases |nodes|
  {
    if |nodes| > 0 {
      assert (nodes + [n])[1..] == nodes[1..] + [n];
      FailedNodesSnoc(nodes[1..], n);
    }
  }

  const ErrorPrefix: string := "Errors occurred during pipeline execution: "

  /** The text of the raised exception: the fixed prefix, then the names. */
  function ErrorMessage(errorList: seq<string>): (r: string)
    ensures StartsWith(r, ErrorPrefix)
    ensures |errorList| >= 1 ==> StartsWith(r[|ErrorPrefix|..], errorList[0])
  {
    PrefixTail(ErrorPrefix, JoinWith(errorList, ','));
    ErrorPrefix + JoinWith(errorList, ',')
  }

  /** The message names exactly the listed nodes when none of their names
      holds a comma: it is the fixed prefix followed by a tail that splits
      back into the list. */
  lemma MessageDecodes(list: seq<string>)
    requires |list| >= 1
    requires forall i :: 0 <= i < |list| ==> ',' !in list[i]
    ensures StartsWith(ErrorMessage(list), ErrorPrefix)
    ensures Split(ErrorMessage(list)[|ErrorPrefix|..], ',') == list
  {
    SplitJoin(list, ',');
    PrefixTail(ErrorPrefix, JoinWith(list, ','));
  }

  /** Failed nodes' names come from the reports, so they are comma-free when
      every report's name is. */
  lemma {:induction false} FailedNamesCommaFree(nodes: seq<NodeReport>)
    requires forall i :: 0 <= i < |nodes| ==> ',' !in nodes[i].name
    ensures forall i :: 0 <= i < |FailedNodes(nodes)| ==> ',' !in FailedNodes(nodes)[i]
  {
    if |nodes| > 0 {
      FailedNamesCommaFree(nodes[1..]);
    }
  }

  lemma PrefixTail(p: string, s: string)
    ensures StartsWith(p + s, p) && (p + s)[|p|..] == s
  {
  }

  // ---------------------------------------------------------------------------
  // The join of the six keys

  datatype AllDataError =
    | PipelineError(message: string)  // the exception raised after the scan
    | MissingKey(key: ChainType)      // `KeyError` of a read
    | InvalidCombinedData             // pydantic's validation of the record

  /** `KV_STORE[k]`. */
  function ReadKey(store: Store, k: ChainType): (r: Result<Value, AllDataError>)
    ensures r.Success? <==> k in store
    ensures r.Success? ==> r.value == store[k]
    ensures r.Failure? ==> r.error == MissingKey(k)
  {
    if k in store then Success(store[k]) else Failure(MissingKey(k))
  }

  /** The first of `keys` the store lacks. */
  function FirstMissing(store: Store, keys: seq<ChainType>): (r: Option<ChainType>)
    ensures r.None? <==> forall i :: 0 <= i < |keys| ==> keys[i] in store
    ensures r.Some? ==> exists i :: 0 <= i < |keys| && keys[i] == r.value && r.value !in store &&
                          forall j :: 0 <= j < i ==> keys[j] in store
  {
    if |keys| == 0 then None
    else if keys[0] !in store then Some(keys[0])
    else
      var r := FirstMissing(store, keys[1..]);
      assert forall i :: 1 <= i < |keys| ==> keys[1..][i - 1] == keys[i];
      r
  }

  /** Every key is present with the kind its field accepts. */
  predicate Populated(store: Store) {
    forall k :: k in store && WellKinded(k, store[k])
  }

  /** The six reads in order, then the record's validation: it succeeds
      exactly when every key holds a value of its kind, and a reported
      missing key is indeed absent. */
  function Join(store: Store): (r: Result<CombinedData, AllDataError>)
    ensures r.Success? <==> Populated(store)
    ensures r.Failure? ==> r.error.InvalidCombinedData? || (r.error.MissingKey? && r.error.key !in store)
  {
    match FirstMissing(store, JoinOrder)
    case Some(k) => Failure(MissingKey(k))
    case None =>
      if !Populated(store) then Failure(InvalidCombinedData)
      else Success(CombinedData(
        store[LogoData].logos, store[DescriptionData].description, store[StockInfoData].info,
        store[StockPriceData].points, store[YouTubeSentimentData].sentiment, store[RedditSentimentData].sentiment))
  }

  /** `get_all_data` after its run: the error scan, then the join. The
      pipeline error is raised exactly when some node failed. */
  function AllData(store: Store, nodes: seq<NodeReport>): (r: Result<CombinedData, AllDataError>)
    ensures (r.Failure? && r.error.PipelineError?) <==> !ErrorFree(nodes)
  {
    FailedNodesEmpty(nodes);
    var errorList := FailedNodes(nodes);
    if |errorList| > 0 then Failure(PipelineError(ErrorMessage(errorList)))
    else Join(store)
  }

  /** The combined record exists exactly when no node failed and every key
      holds a value of its kind; each field is then the value stored under its
      key. A failed node always wins over a missing key. */
  lemma AllDataSpec(store: Store, nodes: seq<NodeReport>)
    ensures AllData(store, nodes).Success? <==> ErrorFree(nodes) && Populated(store)
    ensures !ErrorFree(nodes) ==> AllData(store, nodes) == Failure(PipelineError(ErrorMessage(FailedNodes(nodes))))
    ensures ErrorFree(nodes) && (exists k :: k !in store) ==> AllData(store, nodes).Failure? && AllData(store, nodes).error.MissingKey?
    ensures AllData(store, nodes).Success? ==>
      var c := AllData(store, nodes).value;
      store[LogoData] == LogoValue(c.logo) &&
      store[DescriptionData] == DescriptionValue(c.description) &&
      store[StockInfoData] == StockInfoValue(c.stockInfo) &&
      store[StockPriceData] == StockSeriesValue(c.stockData) &&
      store[YouTubeSentimentData] == SentimentValue(c.youTubeSentiment) &&
      store[RedditSentimentData] == SentimentValue(c.redditSentiment)
  {
    FailedNodesEmpty(nodes);
    if FirstMissing(store, JoinOrder).None? {
      forall k ensures k in store {
        JoinOrderCoversEveryKey(k);
        var i :| 0 <= i < |JoinOrder| && JoinOrder[i] == k;
      }
    }
    if exists k :: k !in store {
      var k :| k !in store;
      JoinOrderCoversEveryKey(k);
    }
  }

  /** The root tracing span around an endpoint: it catches whatever the
      endpoint raises and answers `None` instead. */
  function RootSpan<T, E>(r: Result<T, E>): (a: Option<T>)
    ensures a.Some? <==> r.Success?
    ensures a.Some? ==> a.value == r.value
  {
    if r.Success? then Some(r.value) else None
  }

  /** What the combined endpoint answers: the record exactly when no node
      failed and every key is populated, and `None` otherwise, the pipeline
      error and a missing key included. */
  lemma AllDataAnswer(store: Store, nodes: seq<NodeReport>)
    ensures RootSpan(AllData(store, nodes)).Some? <==> ErrorFree(nodes) && Populated(store)
    ensures !ErrorFree(nodes) ==> RootSpan(AllData(store, nodes)) == None
  {
    AllDataSpec(store, nodes);
  }

  /** Every `Failed` outcome shows up as a failed node of the run. */
  predicate Reported(outcomes: seq<ChainOutcome>, nodes: seq<NodeReport>) {
    forall i :: 0 <= i < |outcomes| && outcomes[i].Failed? ==>
      exists j :: 0 <= j < |nodes| && nodes[j].name == outcomes[i].node && NodeFailed(nodes[j])
  }

  /** No partial result: when any chain fails, the combined endpoint raises
      the pipeline error whatever the other chains stored. */
  lemma NoPartialSuccess(store: Store, outcomes: seq<ChainOutcome>, nodes: seq<NodeReport>, i: nat)
    requires Reported(outcomes, nodes)
    requires i < |outcomes| && outcomes[i].Failed?
    ensures AllData(Deliver(store, outcomes), nodes) == Failure(PipelineError(ErrorMessage(FailedNodes(nodes))))
  {
    var j :| 0 <= j < |nodes| && nodes[j].name == outcomes[i].node && NodeFailed(nodes[j]);
    AllDataSpec(Deliver(store, outcomes), nodes);
  }

  /** The six chain outcomes of a full run. */
  function Outcomes(logo: seq<Logo>, description: Description, info: StockInfo, points: seq<StockData>,
                    youTube: Sentiment, reddit: Sentiment): (r: seq<ChainOutcome>)
    ensures |r| == |JoinOrder|
    ensures forall i :: 0 <= i < |r| ==> r[i].Delivered? && r[i].key == JoinOrder[i]
  {
    [Delivered(LogoData, LogoValue(logo)), Delivered(DescriptionData, DescriptionValue(description)),
     Delivered(StockInfoData, StockInfoValue(info)), Delivered(StockPriceData, StockSeriesValue(points)),
     Delivered(YouTubeSentimentData, SentimentValue(youTube)), Delivered(RedditSentimentData, SentimentValue(reddit))]
  }

  /** A clean run in any finishing order joins exactly the six chains' values. */
  lemma FullRunJoins(store: Store, outcomes: seq<ChainOutcome>, nodes: seq<NodeReport>,
                     logo: seq<Logo>, description: Description, info: StockInfo, points: seq<StockData>,
                     youTube: Sentiment, reddit: Sentiment)
    requires multiset(outcomes) == multiset(Outcomes(logo, description, info, points, youTube, reddit))
    requires ErrorFree(nodes)
    ensures AllData(Deliver(store, outcomes), nodes) ==
      Success(CombinedData(logo, description, info, points, youTube, reddit))
  {
    var all := Outcomes(logo, description, info, points, youTube, reddit);
    var after := Deliver(store, outcomes);
    forall k ensures k in after && after[k] == all[IndexOf(k)].value {
      PermutedKeyDelivered(store, outcomes, all, k);
    }
    HoldsOutcomes(after, logo, description, info, points, youTube, reddit);
    CleanJoin(after, nodes);
  }

  /** A store holding each of the six outcomes' values is populated with them. */
  lemma HoldsOutcomes(after: Store, logo: seq<Logo>, description: Description, info: StockInfo,
                      points: seq<StockData>, youTube: Sentiment, reddit: Sentiment)
    requires forall k ::
      k in after && after[k] == Outcomes(logo, description, info, points, youTube, reddit)[IndexOf(k)].value
    ensures Populated(after)
    ensures CombinedData(after[LogoData].logos, after[DescriptionData].description, after[StockInfoData].info,
      after[StockPriceData].points, after[YouTubeSentimentData].sentiment, after[RedditSentimentData].sentiment)
      == CombinedData(logo, description, info, points, youTube, reddit)
  {
    forall k ensures k in after && WellKinded(k, after[k]) {}
  }

  /** With no failed node and every key populated, the record holds the stored values. */
  lemma CleanJoin(store: Store, nodes: seq<NodeReport>)
    requires ErrorFree(nodes) && Populated(store)
    ensures AllData(store, nodes) == Success(CombinedData(
      store[LogoData].logos, store[DescriptionData].description, store[StockInfoData].info,
      store[StockPriceData].points, store[YouTubeSentimentData].sentiment, store[RedditSentimentData].sentiment))
  {
    FailedNodesEmpty(nodes);
  }

  /** In any order of the six outcomes, each key ends up with its chain's value. */
  lemma PermutedKeyDelivered(store: Store, outcomes: seq<ChainOutcome>, all: seq<ChainOutcome>, k: ChainType)
    requires multiset(outcomes) == multiset(all)
    requires |all| == |JoinOrder| && forall m :: 0 <= m < |all| ==> all[m].Delivered? && all[m].key == JoinOrder[m]
    ensures k in Deliver(store, outcomes) && Deliver(store, outcomes)[k] == all[IndexOf(k)].value
  {
    var o := all[IndexOf(k)];
    assert o in multiset(all);
    var i :| 0 <= i < |outcomes| && outcomes[i] == o;
    forall j | 0 <= j < |outcomes| && j != i && outcomes[j].Delivered?
      ensures outcomes[j].key != o.key
    {
      OnlyOneCopy(outcomes, all, i, j);
    }
    UniqueKeyDelivered(store, outcomes, i);
  }

  /** Where key `k` sits in the join order. */
  function IndexOf(k: ChainType): (i: nat)
    ensures i < |JoinOrder| && JoinOrder[i] == k
  {
    match k
    case LogoData => 0
    case DescriptionData => 1
    case StockInfoData => 2
    case StockPriceData => 3
    case YouTubeSentimentData => 4
    case RedditSentimentData => 5
  }

  /** In a permutation of the six outcomes, no two positions carry the same key. */
  lemma OnlyOneCopy(outcomes: seq<ChainOutcome>, all: seq<ChainOutcome>, i: nat, j: nat)
    requires multiset(outcomes) == multiset(all)
    requires |all| == |JoinOrder| && forall m :: 0 <= m < |all| ==> all[m].Delivered? && all[m].key == JoinOrder[m]
    requires i < |outcomes| && j < |outcomes| && i != j
    requires outcomes[i].Delivered? && outcomes[j].Delivered?
    ensures outcomes[j].key != outcomes[i].key
  {
    var x := outcomes[i];
    var y := outcomes[j];
    assert x in multiset(all) && y in multiset(all);
    var m :| 0 <= m < |all| && all[m] == x;
    var n :| 0 <= n < |all| && all[n] == y;
    assert forall a, b :: 0 <= a < b < |JoinOrder| ==> JoinOrder[a] != JoinOrder[b];
    DistinctOnce(all, m);
    if i < j {
      MultiplicityTwo(outcomes, i, j);
    } else {
      MultiplicityTwo(outcomes, j, i);
    }
    assert x.key == y.key ==> m == n;
  }

  // ---------------------------------------------------------------------------
  // The store itself

  /** `KV_STORE`: one store shared by every request, never cleared. */
  class KvStore {
    var entries: Store

    constructor()
      ensures entries == map[]
    {
      entries := map[];
    }

    /** `store_results`: the key now holds the data; the other keys are unchanged. */
    method StoreResults(key: ChainType, data: Value)
      modifies this
      ensures entries == old(entries)[key := data]
    {
      entries := entries[key := data];
    }

    /** The run of a graph: each outcome reaches `store_results` in turn. */
    method RunChains(outcomes: seq<ChainOutcome>)
      modifies this
      ensures entries == Deliver(old(entries), outcomes)
    {
      for i := 0 to |outcomes|
        invariant entries == Deliver(old(entries), outcomes[..i])
      {
        var o := outcomes[i];
        if o.Delivered? {
          StoreResults(o.key, o.value);
        }
        assert outcomes[..i + 1][..i] == outcomes[..i];
      }
      assert outcomes[..|outcomes|] == outcomes;
    }

    /** `get_all_data`: run the six chains, scan the nodes, join the keys. */
    method GetAllData(outcomes: seq<ChainOutcome>, nodes: seq<NodeReport>)
      returns (r: Result<CombinedData, AllDataError>)
      modifies this
      ensures entries == Deliver(old(entries), outcomes)
      ensures r == AllData(entries, nodes)
    {
      RunChains(outcomes);
      var errorList := CollectErrors(nodes);
      if |errorList| > 0 {
        return Failure(PipelineError(ErrorMessage(errorList)));
      }
      return Join(entries);
    }

    /** `get_youtube_sentiment` and `get_reddit_sentiment`: run the one chain,
        ignore its errors and read its key. */
    method GetSentiment(key: ChainType, outcomes: seq<ChainOutcome>)
      returns (r: Result<Value, AllDataError>)
      modifies this
      ensures entries == Deliver(old(entries), outcomes)
      ensures r == ReadKey(entries, key)
    {
      RunChains(outcomes);
      r := ReadKey(entries, key);
    }
  }

  /** A failed single-source run reads what an earlier request left in the
      store: the stale value, or `KeyError` on a fresh store. */
  lemma FailedRunReadsStale(store: Store, outcomes: seq<ChainOutcome>, k: ChainType)
    requires forall i :: 0 <= i < |outcomes| ==> outcomes[i].Failed?
    ensures ReadKey(Deliver(store, outcomes), k) == ReadKey(store, k)
  {
    DeliverLastWrite(store, outcomes, k);
  }
}

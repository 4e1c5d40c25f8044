# multi-source-sentiment-analysis: the pipeline core in Dafny

The service answers questions about a company: its logo, a description, stock
information, a monthly price series, and two sentiment scores, one from YouTube
comments and one from Reddit comments. For each source a chain of pipeline
stages extracts the data, transforms it, and ends in `store_results`. That sink
writes one `(ChainType, value)` pair into the process-wide key-value store
`KV_STORE`. The combined endpoint `get_all_data` runs the six chains. It then
scans the statistics of every node for an error marker and raises one
exception naming all failed nodes. Otherwise it reads the six keys and builds
one `CombinedData` record. The two single-source endpoints run one chain and
read its one key, with no error scan. Every endpoint runs inside a root
tracing span that catches any exception it raises, so the endpoint then
answers `None` instead (`Endpoint.RootSpan`).

This project models, in Dafny:

- the store and its sink, as the class `Endpoint.KvStore`. A run of the graph
  is the sequential fold `Deliver` of the chains' outcomes. Each outcome is a
  delivered `(key, value)` pair or a failed node.
- the tagging wrappers `extract_*` and the composition of the YouTube and
  Reddit chains.
- the error scan and the message it raises, the six-key join, and the reads of
  the single-source endpoints.
- the logo ranking of `get_logo`:
  - the URL split at the first `?`
  - sorting by index, then stably by distance
  - validation into `Logo` records
- the row selection of `get_stock_info`:
  - the `header_mapping` loop with its `KeyError` past column 4
  - the reset of the row mapping and the `break` at the first row with a ticker
- the YouTube stages:
  - the bounded page loop (at most 5 pages, following `nextPageToken`)
  - flattening into `(videoId, channelId)` pairs
  - truncation to 100 videos by a random sample
  - per-video comment-thread queries that skip HTTP errors
  - flattening of threads and replies into texts
  - the guarded percentage of positive scores among classified scores
- the Reddit stages:
  - truncation to 25 submissions
  - collection of top-level comment bodies, skipping `MoreComments` placeholders
  - the same percentage with its division unguarded. The division fails when
    no score is classified.

Network services, the HTML parser, the sentiment scorer, the edit distance and
`random.sample` are parameters of the model:

- API calls are functions returning a reply or `HttpError`.
- Parsed pages are lists of item texts.
- The VADER scorer is a function `string -> real`.
- The Levenshtein distance is a function `(string, string) -> nat`.
- The price coercion is a function `string -> Option<real>`.
- A sample is any choice satisfying `PyRandom.IsSample`.

Modules:

- `Wrappers`: Option and Result.
- `PyStrings`: Python's `str.split`, `str.join` and `in`.
- `PyRandom`: the contract of `random.sample`.
- `Model`: the records of `model.py`.
- `Multisets`: shared permutation facts.
- `Polarity`: the threshold classification both transforms share.
- `Sorting`: a stable `sorted` with an integer key.
- `Lookups`: the logo ranking and the stock row selection.
- `YouTube` and `Reddit`: the two sentiment chains.
- `Endpoint`: the store, the run, the error scan and the join.

## Model

| member | source | states |
|---|---|---|
| Endpoint.KvStore.constructor | backend/src/endpoint.py:57 | The store starts empty. |
| Endpoint.KvStore.StoreResults | backend/src/endpoint.py:479-490 | The key now holds the data. Every other key keeps its old value. |
| Endpoint.KvStore.RunChains | backend/src/endpoint.py:294-324 | After a run, the store is the old store with each delivered pair applied in finishing order. Failed chains write nothing. |
| Endpoint.KvStore.GetAllData | backend/src/endpoint.py:266-353 | Runs the chains into the shared store. The answer is the error scan and then the join over the store's new contents. |
| Endpoint.KvStore.GetSentiment | backend/src/endpoint.py:356-419 | Runs one chain without an error scan. The answer is the read of the chain's key in the new store: a value or `KeyError`. |
| Endpoint.Apply | backend/src/endpoint.py:479-490 | A delivered pair leaves its key holding its value. No key is removed, and every other key keeps its value. A failed chain leaves the store unchanged. |
| Endpoint.Deliver | backend/src/endpoint.py:294-324 | A run applies the outcomes in finishing order and never removes a key. |
| Endpoint.LastWrite | backend/src/endpoint.py:479-490 | The value found for a key comes from a delivery of exactly that pair, and no later outcome delivers that key. No value exists exactly when no outcome delivered the key. |
| Endpoint.DeliverLastWrite | backend/src/endpoint.py:479-490 | Last write wins: after a run a key holds its last delivered value. A key no chain delivered keeps its old presence and value. |
| Endpoint.UniqueKeyDelivered | backend/src/endpoint.py:294-324 | If one chain is the only one delivering its key, the store ends with that chain's value, whatever the finishing order. |
| Endpoint.ExtractLogoData | backend/src/endpoint.py:422-433 | Delivers exactly when `get_logo` succeeds. The pair is then `LOGO_DATA` with the logos, of the kind the join accepts. Otherwise it fails as its own node. |
| Endpoint.ExtractDescription | backend/src/endpoint.py:436-447 | Delivers exactly when the description call succeeds, under `DESCRPTION_DATA`, with a value of the right kind. |
| Endpoint.ExtractStockInfo | backend/src/endpoint.py:450-461 | Delivers exactly when `get_stock_info` succeeds, under `STOCK_INFO_DATA`, with a value of the right kind. |
| Endpoint.ExtractStockData | backend/src/endpoint.py:464-476 | Delivers exactly when the price-series call succeeds, under `STOCK_PRICE_DATA`, with a value of the right kind. |
| Endpoint.RunYouTubeChain | backend/src/endpoint.py:312-317 | The YouTube chain always delivers `YOUTUBE_SENTIMENT_DATA`. The score is the guarded percentage over the texts of the threads of a truncation to 100 of the searched video ids. It lies in [0, 100]. |
| Endpoint.RunRedditChain | backend/src/endpoint.py:318-323 | The Reddit chain delivers exactly when some comment score is classified, with the percentage over the bodies of a truncation to 25 of the submissions. Otherwise its transform node fails. |
| Endpoint.NodeFailedIff | backend/src/endpoint.py:329-332 | Some space-separated field of a node's statistics contains `err=` exactly when the whole line does. |
| Endpoint.FailedNodes | backend/src/endpoint.py:327-334 | The error list has at most one name per node. |
| Endpoint.CollectErrors | backend/src/endpoint.py:327-334 | The scan loop yields the names of exactly the failed nodes, in run order. |
| Endpoint.FailedNodesSnoc | backend/src/endpoint.py:327-334 | One more node adds its name to the error list exactly when it failed. |
| Endpoint.FailedNodesMembership | backend/src/endpoint.py:327-334 | A name is in the error list exactly when some node of that name failed. |
| Endpoint.FailedNodesEmpty | backend/src/endpoint.py:335 | The error list is empty exactly when no node failed. |
| Endpoint.ErrorMessage | backend/src/endpoint.py:336-338 | The message starts with the fixed prefix, and the first failed name comes right after it. |
| Endpoint.MessageDecodes | backend/src/endpoint.py:335-338 | The raised message is the fixed prefix, then a tail that splits at commas back into the error list, provided no name holds a comma. |
| Endpoint.FailedNamesCommaFree | backend/src/endpoint.py:334 | Failed names are taken from the node reports, so they are comma-free when the reports' names are. |
| Endpoint.ReadKey | backend/src/endpoint.py:340-345 | A read succeeds exactly when the key is present, with the stored value. Otherwise it is `KeyError` of that key. |
| Endpoint.FirstMissing | backend/src/endpoint.py:340-345 | The join reports the first key in read order that the store lacks. No key is reported exactly when all six are present. |
| Endpoint.Join | backend/src/endpoint.py:340-353 | The join succeeds exactly when every key holds a value of its kind. A reported missing key is one the store lacks. Any other failure is the record's validation error. |
| Endpoint.AllData | backend/src/endpoint.py:327-353 | The result is the pipeline error exactly when some node failed. |
| Endpoint.CleanJoin | backend/src/endpoint.py:340-353 | With no failed node and every key populated, the record's fields are the stored values. |
| Endpoint.RootSpan | backend/src/decorators.py:47-70 | The root span answers the endpoint's value exactly when the endpoint returns, and `None` when it raises. |
| Endpoint.AllDataAnswer | backend/src/decorators.py:47-70 | The combined endpoint answers a record exactly when no node failed and every key is populated. It answers `None` whenever a node failed. |
| Endpoint.AllDataSpec | backend/src/endpoint.py:327-353 | The combined record exists exactly when no node failed and every key holds a value of its kind. Any failed node gives the pipeline error with the failed names, even if keys are missing. With no failure, a missing key gives `KeyError`. Each field of the record is the value stored under its key. |
| Endpoint.NoPartialSuccess | backend/src/endpoint.py:327-338 | If a chain fails and its node is reported as failed, the combined endpoint raises the pipeline error, whatever the other chains stored. |
| Endpoint.Outcomes | backend/src/endpoint.py:296-323 | A full run has six delivering chains, one per key, in join order. |
| Endpoint.FullRunJoins | backend/src/endpoint.py:294-353 | A clean run returns exactly the six chains' values as the combined record. This holds in any finishing order and over any earlier store contents. |
| Endpoint.HoldsOutcomes | backend/src/endpoint.py:340-353 | A store holding the six chains' values is populated, and its record is built from exactly those values. |
| Endpoint.PermutedKeyDelivered | backend/src/endpoint.py:294-324 | In any finishing order of the six chains, each key ends up holding its own chain's value. |
| Endpoint.FailedRunReadsStale | backend/src/endpoint.py:378-386 | If the chain fails, a single-source read returns what an earlier request left in the store, or `KeyError` on a fresh store. |
| Model.JoinOrderCoversEveryKey | backend/src/endpoint.py:340-345 | The join reads every chain key. |
| Lookups.StripQuery | backend/src/endpoint.py:104 | The URL kept is a prefix of the `src` that holds no `?`. It stops exactly at the first `?`, and it is the whole `src` when there is none. |
| Lookups.EntryOf | backend/src/endpoint.py:100-108 | An entry keeps its item's index. It has a URL exactly when the item has an image, and a title exactly when it has a span. Its title is one of the span texts, and its distance is that title's distance to the target. |
| Lookups.ScrapeLogoEntries | backend/src/endpoint.py:99-109 | One entry per list item, at its position. The last image gives the URL. The last span gives the title and its distance to the target. |
| Lookups.EntryUrlStripped | backend/src/endpoint.py:102-108 | An entry has a URL exactly when its item has an image. That URL holds no query string and begins the last image's `src`. An entry has a title exactly when it has a distance. |
| Lookups.ToLogo | backend/src/endpoint.py:114 | A complete entry becomes the `Logo` with its index, URL, title and distance. |
| Lookups.ToLogos | backend/src/endpoint.py:114 | One `Logo` per entry, in order. |
| Lookups.RankLogos | backend/src/endpoint.py:111-114 | A successful ranking has one logo per scraped entry. |
| Lookups.RankLogosOutcome | backend/src/endpoint.py:111-114 | Ranking succeeds exactly when every entry is complete. It fails with the sort's `KeyError` exactly when some entry lacks a distance. |
| Lookups.RankLogosPermutation | backend/src/endpoint.py:111-114 | A ranking holds every scraped logo exactly as often as it was scraped. |
| Lookups.RankLogosOrdered | backend/src/endpoint.py:111-112 | A ranking is ordered by distance, and by index among equal distances. |
| Lookups.ScrapedEntriesInIndexOrder | backend/src/endpoint.py:99-112 | Entries carry their positions, so sorting by index leaves the scraped list unchanged. |
| Lookups.MappedPermutation | backend/src/endpoint.py:114 | Converting a permutation of entries gives a permutation of the converted list. |
| Lookups.RowFields | backend/src/endpoint.py:179-199 | A row of at most five cells yields exactly the fields whose column exists: 0 → ticker, 1 → company, 3 → price. Each field holds that column's text. |
| Lookups.RowMapping | backend/src/endpoint.py:179-199 | A row fails exactly when it has more than five cells. Otherwise it maps exactly the fields whose column exists. |
| Lookups.MapRow | backend/src/endpoint.py:196-199 | The cell loop gives the row's field mapping, or `KeyError` for the sixth cell of a longer row. |
| Lookups.FirstRowWithCells | backend/src/endpoint.py:194-201 | The first row with a cell: every earlier row is empty. None exactly when every row is empty. |
| Lookups.StockRowSelection | backend/src/endpoint.py:194-201 | The chosen mapping has a ticker exactly when some row has a cell. Otherwise it is empty. Its only error is the `KeyError` of index 5. |
| Lookups.SelectStockRow | backend/src/endpoint.py:194-201 | The row loop ends with the mapping of the first row with a cell, the `KeyError` of that row, or the empty mapping when every row is empty. |
| Lookups.StockInfoOf | backend/src/endpoint.py:202 | Validation needs all three fields and a parseable price. The record then takes its ticker, company and price from them. Its only error is the validation error. |
| Lookups.GetStockInfo | backend/src/endpoint.py:179-203 | The lookup fails only with the validation error or the `KeyError` of index 5. |
| Lookups.GetStockInfoSpec | backend/src/endpoint.py:179-203 | Success exactly when the first row with a cell has four or five cells and a parseable price. The record is then ticker, company and price from columns 0, 1 and 3. A table of empty rows gives the validation error. |
| Sorting.SortBy | backend/src/endpoint.py:111-112 | `sorted` returns a permutation of its input of the same length. |
| Sorting.SortBySorted | backend/src/endpoint.py:111-112 | `sorted` returns its input in non-decreasing key order. |
| Sorting.SortByStable | backend/src/endpoint.py:111-112 | Stability: sorting a list ordered by a second key gives the order by (key, second key). |
| Sorting.SortBySortedUnchanged | backend/src/endpoint.py:111 | Sorting an already ordered list returns it unchanged. |
| PyStrings.Split | backend/src/endpoint.py:331 | A split always gives at least one piece. |
| PyStrings.SplitTokensFree | backend/src/endpoint.py:331 | No piece of a split holds the separator. |
| PyStrings.JoinWith | backend/src/endpoint.py:337 | A non-empty join starts with its first name. |
| PyStrings.Contains | backend/src/endpoint.py:332 | `p in s` holds exactly when `p` occurs in `s` at some offset. |
| PyStrings.AnyContains | backend/src/endpoint.py:332 | `any(...)` over the pieces holds exactly when some piece contains the pattern. |
| PyStrings.FirstToken | backend/src/endpoint.py:104 | The first piece of a split is the prefix up to the first separator, or the whole string when there is none. |
| PyStrings.AnyTokenContainsIff | backend/src/endpoint.py:331-332 | For a non-empty pattern without the separator, some piece of a split contains it exactly when the whole string does. |
| PyStrings.SplitJoin | backend/src/endpoint.py:337 | Splitting a comma-join of comma-free names gives the names back. |
| PyStrings.JoinSplit | backend/src/endpoint.py:331 | Joining the pieces of a split gives the string back. |
| YouTube.SearchPages | backend/src/youtube.py:56-73 | At most the page budget of responses is collected. |
| YouTube.SearchPagesFollowTokens | backend/src/youtube.py:56-73 | The first page answers the first request. Each later page answers the previous page's token. Collection stops on an HTTP error, on a page without a token, or when five pages are held. |
| YouTube.FetchSearchPages | backend/src/youtube.py:49-73 | The `while True` loop collects the page chain from the first request with a budget of five pages. |
| YouTube.SearchPairs | backend/src/youtube.py:74-80 | One pair per search item, across all pages. |
| YouTube.FlattenSearchData | backend/src/youtube.py:74-80 | The nested loops give the `(videoId, channelId)` pairs of every item, page by page. |
| YouTube.PerformExtractSearchData | backend/src/youtube.py:37-80 | The search data is the flattened page chain, with one pair per item of the collected pages. |
| YouTube.SelectVideos | backend/src/youtube.py:115-124 | All video ids, or a sample of 100 of them when there are more. Never more than 100, and drawn from the ids. |
| YouTube.ThreadReplies | backend/src/youtube.py:125-133 | At most one response per queried video. |
| YouTube.ThreadRepliesAllAnswered | backend/src/youtube.py:125-133 | When no query fails, there is one response per video, in video order. |
| YouTube.FetchCommentThreads | backend/src/youtube.py:125-133 | The query loop keeps the answers of the videos whose query did not raise `HttpError`, in order. |
| YouTube.PerformExtractCommentThreadData | backend/src/youtube.py:105-134 | The threads come from a truncation to 100 of the video ids. There are at most 100 responses. |
| YouTube.ThreadsTexts | backend/src/youtube.py:166-179 | One text per thread plus one per reply. |
| YouTube.CommentTexts | backend/src/youtube.py:166-179 | One text per thread and per reply across all responses. |
| YouTube.ScoreThread | backend/src/youtube.py:168-179 | Scores a thread's top-level text, then each reply. A missing text is scored as "". |
| YouTube.ScoreThreads | backend/src/youtube.py:167-179 | The scores of a response's threads, thread after thread. |
| YouTube.PerformTransformCommentThreadData | backend/src/youtube.py:162-190 | The transform scores every text in thread order, then takes the guarded percentage. The result lies in [0, 100]. |
| YouTube.TransformCommentThreadData | backend/src/youtube.py:137-158 | Yields `YOUTUBE_SENTIMENT_DATA` with the percentage as the score. |
| YouTube.Percentage | backend/src/youtube.py:180-190 | The percentage lies in [0, 100]. It is 0.0 when no score is outside the neutral band. |
| YouTube.PercentageIsPositiveShare | backend/src/youtube.py:180-190 | The percentage is 100 times positives over (positives + negatives), or 0.0 when both counts are zero. |
| YouTube.PercentageIgnoresNeutral | backend/src/youtube.py:180-184 | Adding a neutral score leaves the percentage unchanged. |
| YouTube.PercentagePermutation | backend/src/youtube.py:180-190 | The percentage does not depend on the order of the scores. |
| Polarity.Flags | backend/src/youtube.py:180-184 | One flag per classified score. The number of true flags is the number of positive scores. |
| Polarity.ClassifiedSplits | backend/src/youtube.py:163-164 | Positive and negative scores are disjoint, and together they are exactly the classified scores. |
| PyRandom.SampleExists | backend/src/youtube.py:123-124 | A sample of any size up to the population's exists, so the truncation can always choose one. |
| Reddit.SelectSubmissions | backend/src/reddit.py:107-112 | All submission ids, or a sample of 25 when there are more. Never more than 25, and drawn from the ids. |
| Reddit.TopLevelBodies | backend/src/reddit.py:115-118 | At most one body per top-level node. |
| Reddit.TopLevelBodiesMembership | backend/src/reddit.py:115-118 | A body is collected exactly when a real comment with that body is present. |
| Reddit.TopLevelBodiesWithoutPlaceholders | backend/src/reddit.py:115-118 | With no `MoreComments` placeholders, every comment gives its body, in order. |
| Reddit.CollectTopLevelBodies | backend/src/reddit.py:115-118 | The comment loop keeps the bodies of the real comments in order and skips placeholders. |
| Reddit.SubmissionBodies | backend/src/reddit.py:113-118 | A body is collected exactly when some chosen submission has a real comment with that body. |
| Reddit.PerformRedditExtractCommentThreadData | backend/src/reddit.py:85-119 | The bodies are those of a truncation to 25 of the submissions, submission after submission. |
| Reddit.Percentage | backend/src/reddit.py:167-175 | Raises `ZeroDivisionError` exactly when no score is classified. Otherwise the result lies in [0, 100]. |
| Reddit.PercentageAgreesWithYouTube | backend/src/reddit.py:167-174 | Where the Reddit percentage is defined, it equals the YouTube one. Where it raises, the YouTube one is 0.0. |
| Reddit.PerformRedditTransformCommentThreadData | backend/src/reddit.py:144-175 | The transform scores each body in order, then takes the unguarded percentage. |
| Reddit.RedditTransformCommentThreadData | backend/src/reddit.py:122-140 | Yields `REDDIT_SENTIMENT_DATA` exactly when some score is classified, with the YouTube-equal percentage as the score. |

## Left out

- The pipeline engine's threads: the bonobo run is a sequential fold of the chains' outcomes, in any order the caller gives. The model does not cover concurrent writes of one key.
- Node statistics: their string format and node names are inputs (`NodeReport`). The model does not check that a failed chain's node is reported as failed; `Endpoint.Reported` states that as a hypothesis.
- The graph's bare `store_results` chain (`_input=None`): what the engine does with a sink that has no upstream stage is not modelled. The model only sees it through the node reports.
- Browser automation, HTTP, HTML parsing and the `table`/`div` lookups: parsed pages are given as lists of texts. A missing element (`AttributeError`) and an `img` without `src` (`KeyError`) are not modelled.
- `get_description` (OpenAI) and `get_stock_data` (Polygon): these are foreign calls. Their outcomes are the `Result` arguments of the `extract_*` wrappers.
- `perform_reddit_extract_search_data` (the praw search of 100 submissions): the search result list is an input. Submissions are identified by strings.
- VADER scoring and the Levenshtein distance are function parameters. Their own behaviour is not modelled.
- Pydantic coercion: the price text is parsed by a `parsePrice` parameter. Other coercions are not modelled.
- Reading secrets, `SERVICES`, tracing spans, decorators and `print` are not modelled.
- `random.sample`: modelled as a nondeterministic choice of a sub-multiset of the requested size. The model does not cover randomness or the uniform distribution.
- YouTube.Percentage: scores and the percentage are exact reals. Float rounding of the division and the product is not modelled.
- Reddit.Percentage: exact reals, as above. The `* 100` of an int is taken as the same value as `* 100.0`.
- Endpoint.RunYouTubeChain: the chosen video list is a ghost output. The contract states which truncation the threads came from, but not which one `random.sample` picks.
- Endpoint.RunRedditChain: the chosen submission list is a ghost output, for the same reason.
- Endpoint.RunYouTubeChain: the search and thread oracles answer or give `HttpError`. Other errors of client construction or `execute` are not modelled (youtube.py:45-47, 63-67, 108-111, 127-130). They would fail the chain at its extract node, and the contract does not cover that.
- Endpoint.RunRedditChain: the submission oracle always answers. A praw error while fetching a submission or its comments is not modelled (reddit.py:113-118). It would fail the chain at `reddit_extract_comment_thread_data`, but the contract names only the transform node's division as a failure.
- The root span's catch-all is `Endpoint.RootSpan`. `Endpoint.KvStore.GetAllData` and `Endpoint.KvStore.GetSentiment` return the undecorated function's result. Nested spans, which re-raise, are not modelled.
- Endpoint.MessageDecodes: the decoding holds only for comma-free node names. A name with a comma makes the message ambiguous.

/**
 * The Reddit chain: truncation of the submission list, collection of the
 * top-level comment bodies, and the unguarded threshold aggregate.
 */
module Reddit {
  import opened Wrappers
  import opened Model
  import opened Polarity
  import opened PyRandom
  import YouTube

  const MaxSubmissions: nat := 25

  /** A node of a submission's top-level comment forest. */
  datatype CommentNode = Comment(body: string) | MoreComments

  /** `ZeroDivisionError` of the percentage when no comment is classified. */
  datatype TransformError = ZeroDivisionError

  /** The submissions to read: all of them, or a sample of 25 when there are more. */
  method SelectSubmissions(searchData: seq<string>) returns (ids: seq<string>)
    ensures IsTruncation(ids, searchData, MaxSubmissions)
    ensures |ids| <= MaxSubmissions
    ensures multiset(ids) <= multiset(searchData)
  {
    ids := searchData;
    if |ids| > MaxSubmissions {
      SampleExists(searchData, MaxSubmissions);
      var chosen :| IsSample(chosen, searchData, MaxSubmissions);
      assert IsSample(chosen, searchData, MaxSubmissions);  // unfolds the choice for the postconditions
      ids := chosen;
    }
  }

  /** The bodies of the real comments among `nodes`, in order. */
  function TopLevelBodies(nodes: seq<CommentNode>): (r: seq<string>)
    ensures |r| <= |nodes|
  {
    if |nodes| == 0 then []
    else (if nodes[0].Comment? then [nodes[0].body] else []) + TopLevelBodies(nodes[1..])
  }

  lemma {:induction false} TopLevelBodiesConcat(a: seq<CommentNode>, b: seq<CommentNode>)
    ensures TopLevelBodies(a + b) == TopLevelBodies(a) + TopLevelBodies(b)
  {
    if |a| == 0 {
      assert a + b == b;
    } else {
      assert (a + b)[1..] == a[1..] + b;
      TopLevelBodiesConcat(a[1..], b);
      assert TopLevelBodies(a + b) == (if a[0].Comment? then [a[0].body] else []) + TopLevelBodies(a[1..] + b);
    }
  }

  /** A body is collected exactly when a real comment with that body is present. */
  lemma {:induction false} TopLevelBodiesMembership(nodes: seq<CommentNode>, b: string)
    ensures b in TopLevelBodies(nodes) <==> Comment(b) in nodes
  {
    if |nodes| > 0 {
      TopLevelBodiesMembership(nodes[1..], b);
      assert nodes == [nodes[0]] + nodes[1..];
    }
  }

  /** Without `MoreComments` placeholders every node gives its body, in order. */
  lemma {:induction false} TopLevelBodiesWithoutPlaceholders(nodes: seq<CommentNode>)
    requires forall i :: 0 <= i < |nodes| ==> nodes[i].Comment?
    ensures |TopLevelBodies(nodes)| == |nodes|
    ensures forall i :: 0 <= i < |nodes| ==> TopLevelBodies(nodes)[i] == nodes[i].body
  {
    if |nodes| > 0 {
      TopLevelBodiesWithoutPlaceholders(nodes[1..]);
    }
  }

  /** The bodies of all chosen submissions, submission after submission: a
      body is collected exactly when some chosen submission has a real
      comment with that body. */
  function SubmissionBodies(ids: seq<string>, comments: string -> seq<CommentNode>): (r: seq<string>)
    ensures forall b :: b in r <==> exists i :: 0 <= i < |ids| && Comment(b) in comments(ids[i])
  {
    if |ids| == 0 then []
    else
      TopLevelBodiesMembershipAll(comments(ids[0]));
      assert forall i :: 1 <= i < |ids| ==> ids[1..][i - 1] == ids[i];
      TopLevelBodies(comments(ids[0])) + SubmissionBodies(ids[1..], comments)
  }

  lemma TopLevelBodiesMembershipAll(nodes: seq<CommentNode>)
    ensures forall b :: b in TopLevelBodies(nodes) <==> Comment(b) in nodes
  {
    forall b ensures b in TopLevelBodies(nodes) <==> Comment(b) in nodes {
      TopLevelBodiesMembership(nodes, b);
    }
  }

  lemma {:induction false} SubmissionBodiesConcat(a: seq<string>, b: seq<string>, comments: string -> seq<CommentNode>)
    ensures SubmissionBodies(a + b, comments) == SubmissionBodies(a, comments) + SubmissionBodies(b, comments)
  {
    if |a| == 0 {
      assert a + b == b;
    } else {
      assert (a + b)[1..] == a[1..] + b;
      SubmissionBodiesConcat(a[1..], b, comments);
    }
  }

  /** The loop over one submission's top-level comments, skipping placeholders. */
  method CollectTopLevelBodies(nodes: seq<CommentNode>) returns (bodies: seq<string>)
    ensures bodies == TopLevelBodies(nodes)
  {
    bodies := [];
    for k := 0 to |nodes|
      invariant bodies == TopLevelBodies(nodes[..k])
    {
      assert nodes[..k + 1] == nodes[..k] + [nodes[k]];
      TopLevelBodiesConcat(nodes[..k], [nodes[k]]);
      if nodes[k].MoreComments? {
        continue;
      }
      bodies := bodies + [nodes[k].body];
    }
    assert nodes[..|nodes|] == nodes;
  }

  /** The comment extraction: truncate the ids, then collect every chosen
      submission's top-level comment bodies in order. */
  method PerformRedditExtractCommentThreadData(searchData: seq<string>, comments: string -> seq<CommentNode>)
    returns (commentThreadData: seq<string>, ghost ids: seq<string>)
    ensures IsTruncation(ids, searchData, MaxSubmissions)
    ensures commentThreadData == SubmissionBodies(ids, comments)
  {
    var chosen := SelectSubmissions(searchData);
    commentThreadData := [];
    for i := 0 to |chosen|
      invariant commentThreadData == SubmissionBodies(chosen[..i], comments)
    {
      var bodies := CollectTopLevelBodies(comments(chosen[i]));
      assert chosen[..i + 1] == chosen[..i] + [chosen[i]];
      SubmissionBodiesConcat(chosen[..i], [chosen[i]], comments);
      commentThreadData := commentThreadData + bodies;
    }
    assert chosen[..|chosen|] == chosen;
    ids := chosen;
  }

  /** The unguarded percentage: positives over classified scores, raising
      `ZeroDivisionError` when no score is classified. */
  function Percentage(scores: seq<real>): (r: Result<real, TransformError>)
    ensures r.Failure? <==> Count(scores, IsClassified) == 0
    ensures r.Success? ==> 0.0 <= r.value <= 100.0
  {
    var booleanArray := Flags(scores);
    var trueCount := CountTrue(booleanArray);
    var totalElements := |booleanArray|;
    if totalElements == 0 then Failure(ZeroDivisionError)
    else
      YouTube.FractionAtMostOne(trueCount, totalElements);
      Success((trueCount as real / totalElements as real) * (100 as real))
  }

  /** Where it is defined, the Reddit aggregate is the YouTube aggregate; the
      two differ only on input with no classified score. */
  lemma PercentageAgreesWithYouTube(scores: seq<real>)
    ensures Percentage(scores).Success? ==> Percentage(scores).value == YouTube.Percentage(scores)
    ensures Percentage(scores).Failure? ==> YouTube.Percentage(scores) == 0.0
  {
  }

  /** The transform's scoring loop followed by the percentage. */
  method PerformRedditTransformCommentThreadData(commentThreadData: seq<string>, score: string -> real)
    returns (percentage: Result<real, TransformError>)
    ensures percentage == Percentage(Scores(commentThreadData, score))
  {
    var data: seq<real> := [];
    for i := 0 to |commentThreadData|
      invariant data == Scores(commentThreadData[..i], score)
    {
      var commentText := commentThreadData[i];
      assert commentThreadData[..i + 1] == commentThreadData[..i] + [commentText];
      ScoresSnoc(commentThreadData[..i], commentText, score);
      data := data + [score(commentText)];
    }
    assert commentThreadData[..|commentThreadData|] == commentThreadData;
    percentage := Percentage(data);
  }

  /** The tagged transform stage: one (REDDIT_SENTIMENT_DATA, Sentiment) pair,
      or the division error the stage raises. */
  method RedditTransformCommentThreadData(commentThreadData: seq<string>, score: string -> real)
    returns (r: Result<(ChainType, Sentiment), TransformError>)
    ensures r.Success? <==> Count(Scores(commentThreadData, score), IsClassified) > 0
    ensures r.Success? ==> r.value.0 == RedditSentimentData
    ensures r.Success? ==> r.value.1 == Sentiment(YouTube.Percentage(Scores(commentThreadData, score)))
  {
    var percentage := PerformRedditTransformCommentThreadData(commentThreadData, score);
    PercentageAgreesWithYouTube(Scores(commentThreadData, score));
    if percentage.Failure? {
      r := Failure(percentage.error);
    } else {
      r := Success((RedditSentimentData, Sentiment(percentage.value)));
    }
  }
}

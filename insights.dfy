/**
 * The filter and the statistics both agents offer over processed articles
 * (`filter_articles_by_sentiment`, `get_sentiment_stats`).
 */
module Insights {
  import opened Wrappers
  import opened Articles
  import opened Sequences

  /** Which dictionaries hold exactly `wanted` under `sentiment` (`article.get('sentiment') == wanted`). */
  function SentimentFlags(snapshot: seq<Fields>, wanted: string): (r: seq<bool>)
    ensures |r| == |snapshot|
    ensures forall k :: 0 <= k < |snapshot| ==> (r[k] <==> Get(snapshot[k], SentimentKey, Null) == Str(wanted))
  {
    seq(|snapshot|, k requires 0 <= k < |snapshot| => Get(snapshot[k], SentimentKey, Null) == Str(wanted))
  }

  /**
   * `[article for article in articles if article.get('sentiment') == wanted]`:
   * the articles with exactly that sentiment, in their order.
   */
  function MatchingSentiment(articles: seq<Article>, wanted: string): (r: seq<Article>)
    reads articles
    ensures Subsequence(r, articles)
    ensures forall a :: a in r ==> Get(a.fields, SentimentKey, Null) == Str(wanted)
    ensures forall a :: a in articles && Get(a.fields, SentimentKey, Null) == Str(wanted) ==> a in r
    ensures |r| == CountTrue(SentimentFlags(Snapshot(articles), wanted))
  {
    Select(articles, SentimentFlags(Snapshot(articles), wanted))
  }

  /**
   * `filter_articles_by_sentiment`: a missing or empty filter returns the list
   * itself; any other keeps, in order, exactly the articles with that sentiment.
   */
  function FilterBySentiment(articles: seq<Article>, filter: Option<string>): (r: seq<Article>)
    reads articles
    ensures filter == None || filter == Some("") ==> r == articles
    ensures Subsequence(r, articles)
    ensures filter.Some? && filter.value != "" ==>
      && (forall a :: a in r ==> Get(a.fields, SentimentKey, Null) == Str(filter.value))
      && (forall a :: a in articles && Get(a.fields, SentimentKey, Null) == Str(filter.value) ==> a in r)
      && |r| == CountTrue(SentimentFlags(Snapshot(articles), filter.value))
  {
    if filter.None? || filter.value == "" then
      assert Subsequence(articles, articles) by { SubsequenceOfItself(articles); }
      articles
    else MatchingSentiment(articles, filter.value)
  }

  lemma {:induction false} SubsequenceOfItself<T>(xs: seq<T>)
    ensures Subsequence(xs, xs)
    decreases |xs|
  {
    if xs != [] {
      SubsequenceOfItself(xs[..|xs| - 1]);
    }
  }

  /** `article.get('sentiment', 'NEUTRAL')`: what the statistics count an article under. */
  function CountedSentiment(fields: Fields): (r: Value)
    ensures SentimentKey in fields ==> r == fields[SentimentKey]
    ensures SentimentKey !in fields ==> r == Str("NEUTRAL")
  {
    Get(fields, SentimentKey, Str(Neutral.Name()))
  }

  /** Which dictionaries the statistics count under `wanted`. */
  function TallyFlags(snapshot: seq<Fields>, wanted: Sentiment): (r: seq<bool>)
    ensures |r| == |snapshot|
    ensures forall k :: 0 <= k < |snapshot| ==> (r[k] <==> CountedSentiment(snapshot[k]) == Str(wanted.Name()))
  {
    seq(|snapshot|, k requires 0 <= k < |snapshot| => CountedSentiment(snapshot[k]) == Str(wanted.Name()))
  }

  /** How many articles the statistics count under `wanted`. */
  function Tally(snapshot: seq<Fields>, wanted: Sentiment): nat {
    CountTrue(TallyFlags(snapshot, wanted))
  }

  /** An article the statistics count somewhere: its counted sentiment is one of the three labels. */
  predicate Recognised(fields: Fields) {
    CountedSentiment(fields).Str? && ParseLabel(CountedSentiment(fields).s).Some?
  }

  /**
   * `get_sentiment_stats`: exactly the three wanted keys, each counting the
   * articles whose sentiment (NEUTRAL when missing) is that wanted.
   */
  method SentimentStats(articles: seq<Article>) returns (stats: map<string, nat>)
    ensures stats.Keys == {"POSITIVE", "NEGATIVE", "NEUTRAL"}
    ensures stats["POSITIVE"] == Tally(Snapshot(articles), Positive)
    ensures stats["NEGATIVE"] == Tally(Snapshot(articles), Negative)
    ensures stats["NEUTRAL"] == Tally(Snapshot(articles), Neutral)
  {
    ghost var snapshot := Snapshot(articles);
    stats := map["POSITIVE" := 0, "NEGATIVE" := 0, "NEUTRAL" := 0];
    for i := 0 to |articles|
      invariant Counted(stats, snapshot[..i])
    {
      stats := CountArticle(stats, CountedSentiment(articles[i].fields), snapshot, i);
    }
    assert snapshot[..|articles|] == snapshot;
  }

  /** The three counters hold the tallies of `snapshot`. */
  ghost predicate Counted(stats: map<string, nat>, snapshot: seq<Fields>) {
    && stats.Keys == {"POSITIVE", "NEGATIVE", "NEUTRAL"}
    && stats["POSITIVE"] == Tally(snapshot, Positive)
    && stats["NEGATIVE"] == Tally(snapshot, Negative)
    && stats["NEUTRAL"] == Tally(snapshot, Neutral)
  }

  /** One turn of the counting loop: `stats[sentiment] += 1` when `sentiment` is one of the keys. */
  method CountArticle(stats: map<string, nat>, sentiment: Value, ghost snapshot: seq<Fields>, ghost i: nat)
      returns (updated: map<string, nat>)
    requires i < |snapshot| && sentiment == CountedSentiment(snapshot[i])
    requires Counted(stats, snapshot[..i])
    ensures Counted(updated, snapshot[..i + 1])
  {
    TallyStep(snapshot, i, Positive);
    TallyStep(snapshot, i, Negative);
    TallyStep(snapshot, i, Neutral);
    updated := stats;
    if sentiment.Str? && sentiment.s in stats {
      updated := stats[sentiment.s := stats[sentiment.s] + 1];
    }
  }

  /** Counting one more article adds one to its own label's count and nothing to the others. */
  lemma TallyStep(snapshot: seq<Fields>, i: nat, wanted: Sentiment)
    requires i < |snapshot|
    ensures Tally(snapshot[..i + 1], wanted)
         == Tally(snapshot[..i], wanted) + (if CountedSentiment(snapshot[i]) == Str(wanted.Name()) then 1 else 0)
  {
    assert TallyFlags(snapshot[..i + 1], wanted)[..i] == TallyFlags(snapshot[..i], wanted);
  }

  /**
   * The counts never exceed the number of articles, and they add up to it
   * exactly when every article's counted sentiment is one of the three labels
   * (values outside the wanted set are counted nowhere).
   */
  lemma StatsAccountForRecognised(snapshot: seq<Fields>)
    ensures Tally(snapshot, Positive) + Tally(snapshot, Negative) + Tally(snapshot, Neutral) <= |snapshot|
    ensures Tally(snapshot, Positive) + Tally(snapshot, Negative) + Tally(snapshot, Neutral) == |snapshot|
        <==> forall k :: 0 <= k < |snapshot| ==> Recognised(snapshot[k])
  {
    var p, n, u := TallyFlags(snapshot, Positive), TallyFlags(snapshot, Negative), TallyFlags(snapshot, Neutral);
    CountTrueOfThree(p, n, u);
    assert forall k :: 0 <= k < |snapshot| ==> (Recognised(snapshot[k]) <==> p[k] || n[k] || u[k]);
  }

  /**
   * The filter and the statistics agree on POSITIVE and NEGATIVE; the
   * statistics' NEUTRAL also counts the articles without a sentiment.
   */
  lemma FilterAgreesWithStats(articles: seq<Article>)
    ensures |MatchingSentiment(articles, "POSITIVE")| == Tally(Snapshot(articles), Positive)
    ensures |MatchingSentiment(articles, "NEGATIVE")| == Tally(Snapshot(articles), Negative)
    ensures |MatchingSentiment(articles, "NEUTRAL")| + CountTrue(MissingSentiment(Snapshot(articles)))
         == Tally(Snapshot(articles), Neutral)
  {
    var snapshot := Snapshot(articles);
    assert SentimentFlags(snapshot, "POSITIVE") == TallyFlags(snapshot, Positive);
    assert SentimentFlags(snapshot, "NEGATIVE") == TallyFlags(snapshot, Negative);
    CountTrueOfUnion(SentimentFlags(snapshot, "NEUTRAL"), MissingSentiment(snapshot), TallyFlags(snapshot, Neutral));
  }

  /** Which dictionaries have no `sentiment` key. */
  function MissingSentiment(snapshot: seq<Fields>): (r: seq<bool>)
    ensures |r| == |snapshot|
    ensures forall k :: 0 <= k < |snapshot| ==> (r[k] <==> SentimentKey !in snapshot[k])
  {
    seq(|snapshot|, k requires 0 <= k < |snapshot| => SentimentKey !in snapshot[k])
  }
}

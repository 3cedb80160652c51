/**
 * The local-model strategy (text_processor.py): a summarisation pipeline and
 * a sentiment classifier behind the cleaning filter, with fixed fallbacks.
 * The pipelines themselves are not modelled: their answers are parameters,
 * `None` standing for a call that raised.
 */
module TextProcessor {
  import opened Wrappers
  import opened PyText
  import opened Articles
  import opened TextRules

  /** The classifier's answer for one text: its ordinal label name and its score, in hundredths. */
  datatype Classification = Classification(name: string, score: int)

  /** What the two pipelines answer for one article. */
  datatype Replies = Replies(summary: Option<string>, classification: Option<Classification>)

  /** At most this many cleaned characters go to the summariser. */
  const SummaryInputLimit: nat := 1000

  /**
   * `summarize_text`: a cleaned text under 50 characters is returned as it is;
   * otherwise the summariser's text, or, when it raised, the raw input cut to
   * 100 characters plus an ellipsis.
   */
  function Summarize(text: string, reply: Option<string>): (r: string)
    ensures |Clean(text)| < 50 ==> r == Clean(text)
    ensures |Clean(text)| >= 50 && reply.None? ==> r == Ellipsize(text, 100) && |r| <= 103
    ensures |Clean(text)| >= 50 && reply.Some? ==> r == reply.value
  {
    var cleaned := CleanedPrefix(text, SummaryInputLimit);
    if |cleaned| < 50 then cleaned
    else
      match reply
      case None => Ellipsize(text, 100)
      case Some(summary) => summary
  }

  /** The `sentiment_mapping` lookup: LABEL_0, LABEL_1, LABEL_2; anything else is NEUTRAL. */
  function MapLabel(name: string): (r: Sentiment)
    ensures r == Negative <==> name == "LABEL_0"
    ensures r == Positive <==> name == "LABEL_2"
    ensures r == Neutral <==> name != "LABEL_0" && name != "LABEL_2"
  {
    if name == "LABEL_0" then Negative
    else if name == "LABEL_1" then Neutral
    else if name == "LABEL_2" then Positive
    else Neutral
  }

  /**
   * `analyze_sentiment`: NEUTRAL at 0.5 for a cleaned text under 10 characters
   * or a failed call; otherwise the mapped label with the classifier's score.
   */
  function AnalyzeSentiment(text: string, reply: Option<Classification>): (r: Assessment)
    ensures |Clean(text)| < 10 || reply.None? ==> r == Assessment(Neutral, 50)
    ensures r.sentiment == Positive <==> |Clean(text)| >= 10 && reply.Some? && reply.value.name == "LABEL_2"
    ensures r.sentiment == Negative <==> |Clean(text)| >= 10 && reply.Some? && reply.value.name == "LABEL_0"
    ensures |Clean(text)| >= 10 && reply.Some? ==> r.confidence == reply.value.score
  {
    var cleaned := Clean(text);
    if |cleaned| < 10 then Assessment(Neutral, 50)
    else
      match reply
      case None => Assessment(Neutral, 50)
      case Some(c) => Assessment(MapLabel(c.name), c.score)
  }

  /**
   * The summary and the assessment `process_article` derives from an
   * article's text: a short cleaned text is its own summary, and the label
   * falls back to NEUTRAL at 0.5 for a short text or a failed classifier.
   */
  function ArticleInsight(text: string, replies: Replies): (r: Insight)
    ensures |Clean(text)| < 50 ==> r.summary == Clean(text)
    ensures |Clean(text)| < 10 || replies.classification.None? ==> r.sentiment == Neutral && r.confidence == 50
    ensures r.sentiment == Positive <==>
      |Clean(text)| >= 10 && replies.classification.Some? && replies.classification.value.name == "LABEL_2"
    ensures r.sentiment == Negative <==>
      |Clean(text)| >= 10 && replies.classification.Some? && replies.classification.value.name == "LABEL_0"
  {
    var assessment := AnalyzeSentiment(text, replies.classification);
    Insight(Summarize(text, replies.summary), assessment.sentiment, assessment.confidence)
  }

  /** `process_article`: writes the three derived keys into the dictionary in place. */
  method ProcessArticle(article: Article, replies: Replies)
    modifies article
    ensures article.fields == Enriched(old(article.fields), ArticleInsight(FullText(old(article.fields)), replies))
  {
    var fullText := FullText(article.fields);
    var summary := Summarize(fullText, replies.summary);
    var sentiment := AnalyzeSentiment(fullText, replies.classification);
    ghost var insight := Insight(summary, sentiment.sentiment, sentiment.confidence);
    assert insight == ArticleInsight(fullText, replies);
    ghost var enriched := Enriched(article.fields, insight);
    article.fields := article.fields[SummaryKey := Str(summary)];
    article.fields := article.fields[SentimentKey := Str(sentiment.sentiment.Name())];
    article.fields := article.fields[ConfidenceKey := Num(sentiment.confidence)];
    assert article.fields == enriched;
  }
}

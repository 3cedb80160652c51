/**
 * The remote-generative strategy (text_processor_gemini.py): one prompt for a
 * summary and one for a label. The generative model is not modelled: its
 * answers are parameters, `None` standing for a call that raised. An over-long
 * summary is cut back to whole `". "`-separated sentences.
 */
module TextProcessorGemini {
  import opened Wrappers
  import opened PyText
  import opened Articles
  import opened TextRules

  /** What the model answers to the summary prompt and to the sentiment prompt of one article. */
  datatype Replies = Replies(summary: Option<string>, sentiment: Option<string>)

  /** At most this many cleaned characters are put into the summary prompt. */
  const SummaryInputLimit: nat := 2000

  /** The `max_length` that `process_article` summarises with. */
  const DefaultMaxLength: int := 200

  /** What a list of sentences costs against the limit: each its length plus 2 for `". "`. */
  function SentencesCost(sentences: seq<string>): nat {
    if sentences == [] then 0 else |sentences[0]| + 2 + SentencesCost(sentences[1..])
  }

  /**
   * The sentences the summary loop keeps: the longest run of leading sentences
   * whose cost stays within `budget`. Either all are kept, or the next one
   * would have gone over.
   */
  function FittingSentences(sentences: seq<string>, budget: int): (r: seq<string>)
    ensures |r| <= |sentences|
    decreases |sentences|
  {
    if sentences == [] || |sentences[0]| + 2 > budget then []
    else [sentences[0]] + FittingSentences(sentences[1..], budget - |sentences[0]| - 2)
  }

  /**
   * The kept sentences are a prefix of the sentences, they fit in the budget,
   * and when some are left out the first of those would not have fitted.
   */
  lemma {:induction false} FittingSentencesFit(sentences: seq<string>, budget: int)
    ensures var r := FittingSentences(sentences, budget);
      && |r| <= |sentences| && r == sentences[..|r|]
      && (r == [] || SentencesCost(r) <= budget)
      && (|r| < |sentences| ==> SentencesCost(r) + |sentences[|r|]| + 2 > budget)
    decreases |sentences|
  {
    if sentences != [] && |sentences[0]| + 2 <= budget {
      var rest := FittingSentences(sentences[1..], budget - |sentences[0]| - 2);
      FittingSentencesFit(sentences[1..], budget - |sentences[0]| - 2);
      var r := [sentences[0]] + rest;
      assert r[1..] == rest;
      assert sentences == [sentences[0]] + sentences[1..];
    }
  }

  /** The `for sentence in sentences` loop of `summarize_text`, with its running `current_length`. */
  method KeepWholeSentences(sentences: seq<string>, maxLength: int) returns (kept: seq<string>)
    ensures kept == FittingSentences(sentences, maxLength)
  {
    kept := [];
    var currentLength := 0;
    for i := 0 to |sentences|
      invariant FittingSentences(sentences, maxLength)
             == kept + FittingSentences(sentences[i..], maxLength - currentLength)
    {
      var sentence := sentences[i];
      if currentLength + |sentence| + 2 <= maxLength {
        KeepOneMore(sentences, maxLength, kept, i, maxLength - currentLength);
        kept := kept + [sentence];
        currentLength := currentLength + |sentence| + 2;
      } else {
        FittingStep(sentences, i, maxLength - currentLength);
        break;
      }
    }
    assert sentences[|sentences|..] == [];
  }

  /** Keeping sentence `i` moves it from the sentences still to search to the kept ones. */
  lemma KeepOneMore(sentences: seq<string>, maxLength: int, kept: seq<string>, i: nat, budget: int)
    requires i < |sentences| && |sentences[i]| + 2 <= budget
    requires FittingSentences(sentences, maxLength) == kept + FittingSentences(sentences[i..], budget)
    ensures FittingSentences(sentences, maxLength)
         == (kept + [sentences[i]]) + FittingSentences(sentences[i + 1..], budget - |sentences[i]| - 2)
  {
    FittingStep(sentences, i, budget);
    var rest := FittingSentences(sentences[i + 1..], budget - |sentences[i]| - 2);
    assert kept + ([sentences[i]] + rest) == (kept + [sentences[i]]) + rest;
  }

  /** One sentence further: it is kept when it fits in the remaining budget, and then the search goes on. */
  lemma FittingStep(sentences: seq<string>, i: nat, budget: int)
    requires i < |sentences|
    ensures |sentences[i]| + 2 <= budget ==>
      FittingSentences(sentences[i..], budget)
        == [sentences[i]] + FittingSentences(sentences[i + 1..], budget - |sentences[i]| - 2)
    ensures |sentences[i]| + 2 > budget ==> FittingSentences(sentences[i..], budget) == []
  {
    assert sentences[i..][1..] == sentences[i + 1..];
  }

  /**
   * The post-processing of the model's summary: unchanged when within
   * `maxLength`; otherwise the kept whole sentences joined by `". "` plus a
   * final `"."`, or, when there is no `". "`, the first `maxLength - 3`
   * characters plus `"..."`.
   */
  function ShortenSummary(summary: string, maxLength: int): (r: string)
    ensures |summary| <= maxLength ==> r == summary
    ensures |summary| > maxLength ==> r != [] && r[|r| - 1] == '.'
  {
    if |summary| <= maxLength then summary
    else
      var sentences := Split(summary, ". ");
      if |sentences| > 1 then Join(FittingSentences(sentences, maxLength), ". ") + "."
      else PyPrefix(summary, maxLength - 3) + "..."
  }

  /** Joined sentences are as long as their cost, less the one separator they do not carry. */
  lemma {:induction false} JoinedLength(sentences: seq<string>)
    requires sentences != []
    ensures |Join(sentences, ". ")| + 2 == SentencesCost(sentences)
    decreases |sentences|
  {
    if |sentences| > 1 {
      JoinedLength(sentences[1..]);
    }
  }

  /**
   * An over-long summary that has sentence breaks is cut back to its leading
   * whole sentences: what remains before the final `"."` is a prefix of the
   * summary ending at a sentence break, and the result is at most
   * `maxLength - 1` long. When not even the first sentence fits, the result
   * is a lone `"."`.
   */
  lemma CutAtSentenceBreak(summary: string, maxLength: int)
    requires |summary| > maxLength
    requires Contains(summary, ". ")
    ensures var sentences := Split(summary, ". ");
            var k := |FittingSentences(sentences, maxLength)|;
            var r := ShortenSummary(summary, maxLength);
            && k < |sentences|
            && r == Join(sentences[..k], ". ") + "."
            && |r| <= |summary|
            && r[..|r| - 1] == summary[..|r| - 1]
            && (k == 0 <==> |sentences[0]| + 2 > maxLength)
            && (k == 0 ==> r == ".")
            && (k > 0 ==> |r| <= maxLength - 1)
  {
    var sentences := Split(summary, ". ");
    SplitsIffContains(summary, ". ");
    SomeSentenceLeftOut(summary, maxLength);
    var kept := FittingSentences(sentences, maxLength);
    FittingSentencesFit(sentences, maxLength);
    var k := |kept|;
    if k > 0 {
      JoinedLength(kept);
      JoinedPrefix(summary, k);
    }
  }

  /** An over-long summary never keeps all its sentences: together they cost more than the limit. */
  lemma SomeSentenceLeftOut(summary: string, maxLength: int)
    requires |summary| > maxLength
    ensures |FittingSentences(Split(summary, ". "), maxLength)| < |Split(summary, ". ")|
  {
    var sentences := Split(summary, ". ");
    JoinSplit(summary, ". ");
    FittingSentencesFit(sentences, maxLength);
    if |FittingSentences(sentences, maxLength)| == |sentences| {
      assert FittingSentences(sentences, maxLength) == sentences[..|sentences|] == sentences;
      JoinedLength(sentences);
      assert false;
    }
  }

  /** The first `k` sentences, joined, are the summary up to the `k`-th sentence break. */
  lemma JoinedPrefix(summary: string, k: nat)
    requires 0 < k < |Split(summary, ". ")|
    ensures var head := Join(Split(summary, ". ")[..k], ". ");
      && |head| + 2 <= |summary| && head == summary[..|head|]
      && summary[|head|..|head| + 2] == ". "
  {
    var sentences := Split(summary, ". ");
    JoinSplit(summary, ". ");
    JoinAppend(sentences, k, ". ");
  }

  /** An over-long summary without a sentence break is cut to exactly `maxLength` characters. */
  lemma HardCut(summary: string, maxLength: int)
    requires |summary| > maxLength >= 3
    requires !Contains(summary, ". ")
    ensures var r := ShortenSummary(summary, maxLength);
            |r| == maxLength && r == summary[..maxLength - 3] + "..."
  {
    SplitsIffContains(summary, ". ");
  }

  /**
   * Below a limit of 3, `max_length - 3` is negative and Python's slice counts
   * from the end: the hard cut keeps all but the last `3 - max_length`
   * characters, or none at all, before the `"..."`.
   */
  lemma HardCutSmallLimit(summary: string, maxLength: int)
    requires |summary| > maxLength && maxLength < 3
    requires !Contains(summary, ". ")
    ensures var r := ShortenSummary(summary, maxLength);
            && (|summary| + maxLength - 3 >= 0 ==> r == summary[..|summary| + maxLength - 3] + "...")
            && (|summary| + maxLength - 3 < 0 ==> r == "...")
  {
    SplitsIffContains(summary, ". ");
  }

  /** With a limit of at least 3, the post-processed summary never exceeds it. */
  lemma ShortenWithinLimit(summary: string, maxLength: int)
    requires maxLength >= 3
    ensures |ShortenSummary(summary, maxLength)| <= maxLength
  {
    if |summary| > maxLength {
      if Contains(summary, ". ") {
        CutAtSentenceBreak(summary, maxLength);
      } else {
        HardCut(summary, maxLength);
      }
    }
  }

  /**
   * `summarize_text`: a cleaned text (cut to 2000 characters) under 50
   * characters is returned without a model call; otherwise the model's
   * stripped summary, post-processed, or, when the call raised, the raw input
   * cut to 100 characters plus an ellipsis.
   */
  function Summary(text: string, maxLength: int, reply: Option<string>): (r: string)
    ensures |Clean(text)| < 50 ==> r == Clean(text)
    ensures |Clean(text)| >= 50 && reply.None? ==> r == Ellipsize(text, 100)
    ensures |Clean(text)| >= 50 && reply.Some? ==> r == ShortenSummary(Strip(reply.value), maxLength)
  {
    var input := CleanedPrefix(text, SummaryInputLimit);
    if |input| < 50 then input
    else
      match reply
      case None => Ellipsize(text, 100)
      case Some(answer) => ShortenSummary(Strip(answer), maxLength)
  }

  /** With the default limit of 200, a summary is never longer than 200 characters. */
  lemma SummaryWithinDefaultLimit(text: string, reply: Option<string>)
    ensures |Summary(text, DefaultMaxLength, reply)| <= DefaultMaxLength
  {
    if |Clean(text)| >= 50 && reply.Some? {
      ShortenWithinLimit(Strip(reply.value), DefaultMaxLength);
    }
  }

  /** The body of `summarize_text`, statement by statement. */
  method Summarize(text: string, maxLength: int, reply: Option<string>) returns (summary: string)
    ensures summary == Summary(text, maxLength, reply)
  {
    var cleaned := Clean(text);
    if |cleaned| > SummaryInputLimit {
      cleaned := cleaned[..SummaryInputLimit];
    }
    assert cleaned == CleanedPrefix(text, SummaryInputLimit);
    if |cleaned| < 50 {
      return cleaned;
    }
    match reply
    case None =>
      summary := Ellipsize(text, 100);
    case Some(answer) =>
      summary := Strip(answer);
      ghost var stripped := summary;
      if |summary| > maxLength {
        var sentences := Split(summary, ". ");
        if |sentences| > 1 {
          var kept := KeepWholeSentences(sentences, maxLength);
          summary := Join(kept, ". ") + ".";
        } else {
          summary := PyPrefix(summary, maxLength - 3) + "...";
        }
      }
      assert summary == ShortenSummary(stripped, maxLength);
  }

  /** The answer validation: stripped and upper-cased, anything but a label is NEUTRAL. */
  function ValidatedLabel(answer: string): (r: Sentiment)
    ensures r != Neutral ==> Upper(Strip(answer)) == r.Name()
    ensures r == Neutral <==> Upper(Strip(answer)) != "POSITIVE" && Upper(Strip(answer)) != "NEGATIVE"
  {
    ParseLabel(Upper(Strip(answer))).GetOr(Neutral)
  }

  /**
   * `analyze_sentiment`: NEUTRAL at 0.5 for a cleaned text under 10 characters
   * or a failed call; otherwise the validated label, at 0.8 for POSITIVE and
   * NEGATIVE and 0.6 for NEUTRAL.
   */
  function AnalyzeSentiment(text: string, reply: Option<string>): (r: Assessment)
    ensures r.confidence == 50 || r.confidence == 60 || r.confidence == 80
    ensures r.confidence == 80 <==> r.sentiment != Neutral
    ensures r.confidence == 50 <==> |Clean(text)| < 10 || reply.None?
    ensures r.sentiment == Positive <==> |Clean(text)| >= 10 && reply.Some? && Upper(Strip(reply.value)) == "POSITIVE"
    ensures r.sentiment == Negative <==> |Clean(text)| >= 10 && reply.Some? && Upper(Strip(reply.value)) == "NEGATIVE"
  {
    var cleaned := Clean(text);
    if |cleaned| < 10 then Assessment(Neutral, 50)
    else
      match reply
      case None => Assessment(Neutral, 50)
      case Some(answer) =>
        var sentiment := ValidatedLabel(answer);
        Assessment(sentiment, if sentiment == Positive || sentiment == Negative then 80 else 60)
  }

  /**
   * The summary and the assessment `process_article` derives from an
   * article's text: the summary never exceeds the default limit, and the
   * confidence is 0.8 exactly for a POSITIVE or NEGATIVE label.
   */
  function ArticleInsight(text: string, replies: Replies): (r: Insight)
    ensures |r.summary| <= DefaultMaxLength
    ensures r.confidence == 80 <==> r.sentiment != Neutral
    ensures |Clean(text)| < 10 || replies.sentiment.None? ==> r.sentiment == Neutral && r.confidence == 50
  {
    var assessment := AnalyzeSentiment(text, replies.sentiment);
    SummaryWithinDefaultLimit(text, replies.summary);
    Insight(Summary(text, DefaultMaxLength, replies.summary), assessment.sentiment, assessment.confidence)
  }

  /** `process_article`: writes the three derived keys into the dictionary in place. */
  method ProcessArticle(article: Article, replies: Replies)
    modifies article
    ensures article.fields == Enriched(old(article.fields), ArticleInsight(FullText(old(article.fields)), replies))
  {
    var fullText := FullText(article.fields);
    var summary := Summarize(fullText, DefaultMaxLength, replies.summary);
    var sentiment := AnalyzeSentiment(fullText, replies.sentiment);
    ghost var insight := Insight(summary, sentiment.sentiment, sentiment.confidence);
    assert insight == ArticleInsight(fullText, replies);
    ghost var enriched := Enriched(article.fields, insight);
    article.fields := article.fields[SummaryKey := Str(summary)];
    article.fields := article.fields[SentimentKey := Str(sentiment.sentiment.Name())];
    article.fields := article.fields[ConfidenceKey := Num(sentiment.confidence)];
    assert article.fields == enriched;
  }
}

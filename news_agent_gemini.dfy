/**
 * The hosted-model agent (news_agent_gemini.py): the same loop as the local
 * agent, except that a record is handed to the keyword fallback
 * (`_simple_process_article`) when no model client could be built or when
 * the model processing raised. A fallback that raises inside the exception
 * handler is not caught: it ends the whole call, leaving the records visited
 * so far as they were written.
 */
module NewsAgentGemini {
  import opened Wrappers
  import opened Articles
  import opened Sequences
  import opened Keywords
  import opened TextRules
  import TextProcessorGemini

  /** The fallback's positive keywords. */
  const PositiveWords: seq<string> :=
    ["good", "great", "excellent", "positive", "success", "win", "profit", "growth", "up", "rise"]

  /** The fallback's negative keywords. */
  const NegativeWords: seq<string> :=
    ["bad", "terrible", "negative", "loss", "fail", "down", "fall", "crisis", "problem"]

  /** The confidence, in hundredths, the fallback always records. */
  const FallbackConfidence: int := 70

  /** The fallback summary keeps this many characters of the description. */
  const FallbackSummaryLength: int := 150

  /**
   * What `_simple_process_article` derives from a dictionary, or `None` when
   * it raises: taking the length of a description that is not text fails.
   * The summary is the description itself, or its first 150 characters and
   * an ellipsis; the label is the keyword majority over the full text.
   */
  function SimpleInsight(fields: Fields): (r: Option<Insight>)
    ensures r.Some? <==> Get(fields, DescriptionKey, Str("")).Str?
    ensures r.Some? ==> r.value.confidence == FallbackConfidence
    ensures r.Some? ==> var description := Get(fields, DescriptionKey, Str("")).s;
      && (|description| <= FallbackSummaryLength ==> r.value.summary == description)
      && (|description| > FallbackSummaryLength ==>
            |r.value.summary| == FallbackSummaryLength + 3
            && r.value.summary[..FallbackSummaryLength] == description[..FallbackSummaryLength]
            && r.value.summary[FallbackSummaryLength..] == "...")
    ensures r.Some? ==> r.value.sentiment == Verdict(FullText(fields), PositiveWords, NegativeWords)
    ensures r.Some? ==>
      (r.value.sentiment == Positive <==>
        Hits(PyText.Lower(FullText(fields)), PositiveWords) > Hits(PyText.Lower(FullText(fields)), NegativeWords))
  {
    var sentiment := Verdict(FullText(fields), PositiveWords, NegativeWords);
    match Get(fields, DescriptionKey, Str(""))
    case Str(description) => Some(Insight(Ellipsize(description, FallbackSummaryLength), sentiment, FallbackConfidence))
    case _ => None
  }

  /**
   * `_simple_process_article`: writes the fallback's three keys in place, or
   * raises (reported as `raised`) before writing anything.
   */
  method SimpleProcessArticle(article: Article) returns (raised: bool)
    modifies article
    ensures raised <==> SimpleInsight(old(article.fields)).None?
    ensures raised ==> article.fields == old(article.fields)
    ensures !raised ==> article.fields == Enriched(old(article.fields), SimpleInsight(old(article.fields)).value)
  {
    var text := FullText(article.fields);
    var sentiment := Verdict(text, PositiveWords, NegativeWords);
    var description := Get(article.fields, DescriptionKey, Str(""));
    if !description.Str? {
      return true;
    }
    var summary := Ellipsize(description.s, FallbackSummaryLength);
    article.fields := article.fields[SummaryKey := Str(summary)];
    article.fields := article.fields[SentimentKey := Str(sentiment.Name())];
    article.fields := article.fields[ConfidenceKey := Num(FallbackConfidence)];
    return false;
  }

  /** What the loop does with one record. */
  datatype Route =
    | Skip                                            // neither title nor description
    | Model(replies: TextProcessorGemini.Replies)     // enriched by the model processor
    | Fallback                                        // enriched by the keyword fallback
    | Abort                                           // the fallback raised inside the handler

  /**
   * The route of one record: skipped without content; the model's answers
   * when a client exists and its processing did not raise (`attempt` is
   * `None` when it raised); otherwise the fallback, which aborts the call
   * when it raises.
   */
  function RouteOf(fields: Fields, hasProcessor: bool, attempt: Option<TextProcessorGemini.Replies>): (r: Route)
    ensures r == Skip <==> Lacking(fields)
    ensures r.Model? <==> !Lacking(fields) && hasProcessor && attempt.Some?
    ensures r == Abort <==> !Lacking(fields) && (!hasProcessor || attempt.None?) && !Get(fields, DescriptionKey, Str("")).Str?
  {
    if Lacking(fields) then Skip
    else if hasProcessor && attempt.Some? then Model(attempt.value)
    else if Get(fields, DescriptionKey, Str("")).Str? then Fallback
    else Abort
  }

  /**
   * A record's dictionary once the loop has visited it: enriched, with a
   * label, along the two processing routes; untouched otherwise.
   */
  function Outcome(fields: Fields, route: Route): (r: Fields)
    ensures route.Model? ==> r.Keys >= fields.Keys && LabelOf(r).Some?
    ensures route == Fallback && Get(fields, DescriptionKey, Str("")).Str? ==> r.Keys >= fields.Keys && LabelOf(r).Some?
    ensures route == Skip || route == Abort ==> r == fields
  {
    match route
    case Model(replies) => Enriched(fields, TextProcessorGemini.ArticleInsight(FullText(fields), replies))
    case Fallback =>
      (match SimpleInsight(fields)
       case Some(insight) => Enriched(fields, insight)
       case None => fields)
    case _ => fields
  }

  /** Every record's route, in fetch order (see `RouteAt`). */
  function Routes(snapshot: seq<Fields>, hasProcessor: bool, attempts: seq<Option<TextProcessorGemini.Replies>>): (r: seq<Route>)
    requires |attempts| == |snapshot|
    ensures |r| == |snapshot|
    decreases |snapshot|
  {
    if snapshot == [] then []
    else
      var n := |snapshot| - 1;
      Routes(snapshot[..n], hasProcessor, attempts[..n]) + [RouteOf(snapshot[n], hasProcessor, attempts[n])]
  }

  /** Entry `k` of the route list is record `k`'s route. */
  lemma {:induction false} RouteAt(snapshot: seq<Fields>, hasProcessor: bool, attempts: seq<Option<TextProcessorGemini.Replies>>, k: nat)
    requires |attempts| == |snapshot| && k < |snapshot|
    ensures Routes(snapshot, hasProcessor, attempts)[k] == RouteOf(snapshot[k], hasProcessor, attempts[k])
    decreases |snapshot|
  {
    var n := |snapshot| - 1;
    if k < n {
      RouteAt(snapshot[..n], hasProcessor, attempts[..n], k);
    }
  }

  /** Which records abort the call. */
  function AbortFlags(routes: seq<Route>): (r: seq<bool>)
    ensures |r| == |routes|
    ensures forall k :: 0 <= k < |routes| ==> (r[k] <==> routes[k] == Abort)
  {
    seq(|routes|, k requires 0 <= k < |routes| => routes[k] == Abort)
  }

  /** Which records end up in the result (when the call returns). */
  function KeepFlags(routes: seq<Route>): (r: seq<bool>)
    ensures |r| == |routes|
    ensures forall k :: 0 <= k < |routes| ==> (r[k] <==> routes[k].Model? || routes[k] == Fallback)
  {
    seq(|routes|, k requires 0 <= k < |routes| => routes[k].Model? || routes[k] == Fallback)
  }

  /** Every record the loop keeps carries a label once it has been visited. */
  lemma KeptRecordsAreLabelled(snapshot: seq<Fields>, hasProcessor: bool,
                               attempts: seq<Option<TextProcessorGemini.Replies>>)
    requires |attempts| == |snapshot|
    ensures var routes := Routes(snapshot, hasProcessor, attempts);
      forall k :: 0 <= k < |snapshot| && KeepFlags(routes)[k] ==> LabelOf(Outcome(snapshot[k], routes[k])).Some?
  {
    var routes := Routes(snapshot, hasProcessor, attempts);
    forall k | 0 <= k < |snapshot| && KeepFlags(routes)[k]
      ensures LabelOf(Outcome(snapshot[k], routes[k])).Some?
    {
      RouteAt(snapshot, hasProcessor, attempts, k);
    }
  }

  /**
   * `get_news_insights` (hosted-model variant): if some record aborts, the
   * call raises (`None`) at the first such record, every record before it
   * holds its outcome and every record from it on is untouched; otherwise the
   * result lists the kept records in fetch order, each holding its outcome.
   */
  method GetNewsInsights(fetched: seq<Article>, hasProcessor: bool,
                         attempts: seq<Option<TextProcessorGemini.Replies>>)
      returns (result: Option<seq<Article>>)
    requires |attempts| == |fetched|
    requires Distinct(fetched)
    modifies fetched
    ensures var routes := Routes(old(Snapshot(fetched)), hasProcessor, attempts);
      && (result.None? <==> FirstTrue(AbortFlags(routes)) < |fetched|)
      && (result.Some? ==> result.value == Select(fetched, KeepFlags(routes)))
      && Settled(fetched, old(Snapshot(fetched)), routes, FirstTrue(AbortFlags(routes)))
  {
    ghost var before := Snapshot(fetched);
    ghost var routes := Routes(before, hasProcessor, attempts);
    ghost var aborts := AbortFlags(routes);
    ghost var keep := KeepFlags(routes);
    if |fetched| == 0 {
      return Some([]);
    }
    var processed := [];
    for i := 0 to |fetched|
      invariant i <= FirstTrue(aborts)
      invariant Progress(fetched, before, routes, keep, processed, i)
    {
      var aborted;
      processed, aborted := VisitRecord(fetched, i, processed, hasProcessor, attempts, before, routes, keep);
      if aborted {
        FirstTrueAt(aborts, i);
        return None;
      }
      FirstTruePast(aborts, i);
    }
    assert fetched[..|fetched|] == fetched;
    assert keep[..|fetched|] == keep;
    return Some(processed);
  }

  /**
   * The state after the loop has visited the first `i` records: the kept ones
   * among them are listed in order, and they are settled.
   */
  ghost predicate Progress(fetched: seq<Article>, before: seq<Fields>, routes: seq<Route>, keep: seq<bool>,
                           processed: seq<Article>, i: nat)
    reads fetched
  {
    && i <= |fetched| && |keep| == |fetched|
    && processed == Select(fetched[..i], keep[..i])
    && Settled(fetched, before, routes, i)
  }

  /**
   * One turn of the loop: process record `i` and append it when it is kept;
   * an abort leaves the record as it was.
   */
  method VisitRecord(fetched: seq<Article>, i: nat, processed: seq<Article>, hasProcessor: bool,
                     attempts: seq<Option<TextProcessorGemini.Replies>>,
                     ghost before: seq<Fields>, ghost routes: seq<Route>, ghost keep: seq<bool>)
      returns (extended: seq<Article>, aborted: bool)
    requires i < |fetched| && |attempts| == |fetched| && |before| == |fetched| && Distinct(fetched)
    requires routes == Routes(before, hasProcessor, attempts) && keep == KeepFlags(routes)
    requires Progress(fetched, before, routes, keep, processed, i)
    modifies fetched[i]
    ensures aborted <==> routes[i] == Abort
    ensures aborted ==> Settled(fetched, before, routes, i)
    ensures !aborted ==> Progress(fetched, before, routes, keep, extended, i + 1)
  {
    SelectSnoc(fetched, keep, i);
    RouteAt(before, hasProcessor, attempts, i);
    var article := fetched[i];
    var kept;
    kept, aborted := ProcessRecord(article, hasProcessor, attempts[i], before[i], routes[i]);
    SettleRecord(fetched, Outcomes(before, routes, Outcome), before, i);
    extended := if kept then processed + [article] else processed;
  }

  /**
   * The body of the loop's `try` and `except` clauses for one record: skip a
   * record without content, else run the model processor or the fallback,
   * and on failure run the fallback again, whose failure aborts the call.
   */
  method ProcessRecord(article: Article, hasProcessor: bool, attempt: Option<TextProcessorGemini.Replies>,
                     ghost fields: Fields, ghost route: Route)
      returns (kept: bool, aborted: bool)
    requires article.fields == fields && route == RouteOf(fields, hasProcessor, attempt)
    modifies article
    ensures aborted <==> route == Abort
    ensures kept <==> route.Model? || route == Fallback
    ensures article.fields == Outcome(fields, route)
  {
    if Lacking(article.fields) {
      return false, false;
    }
    var failed: bool;
    if hasProcessor {
      match attempt
      case Some(replies) =>
        TextProcessorGemini.ProcessArticle(article, replies);
        failed := false;
      case None =>
        failed := true;
    } else {
      failed := SimpleProcessArticle(article);
    }
    if failed {
      // The handler retries with the fallback; a failure there escapes the loop.
      var failedAgain := SimpleProcessArticle(article);
      if failedAgain {
        return false, true;
      }
    }
    return true, false;
  }

  /**
   * The records before `stop` hold their outcomes along their routes; the
   * others still hold their fetched fields.
   */
  ghost predicate Settled(fetched: seq<Article>, before: seq<Fields>, routes: seq<Route>, stop: nat)
    reads fetched
  {
    |routes| == |before| && SettledAs(fetched, Outcomes(before, routes, Outcome), before, stop)
  }

  /**
   * When every description is text, the fallback cannot raise: the call
   * returns, with every record that has a title or a description.
   */
  lemma TextDescriptionsNeverAbort(snapshot: seq<Fields>, hasProcessor: bool,
                                   attempts: seq<Option<TextProcessorGemini.Replies>>)
    requires |attempts| == |snapshot|
    requires forall k :: 0 <= k < |snapshot| ==> Get(snapshot[k], DescriptionKey, Str("")).Str?
    ensures FirstTrue(AbortFlags(Routes(snapshot, hasProcessor, attempts))) == |snapshot|
    ensures KeepFlags(Routes(snapshot, hasProcessor, attempts))
         == seq(|snapshot|, k requires 0 <= k < |snapshot| => !Lacking(snapshot[k]))
  {
    var routes := Routes(snapshot, hasProcessor, attempts);
    forall k | 0 <= k < |snapshot|
      ensures !AbortFlags(routes)[k]
      ensures KeepFlags(routes)[k] == !Lacking(snapshot[k])
    {
      RouteAt(snapshot, hasProcessor, attempts, k);
    }
  }

  /**
   * Without a model client every record with content goes through the
   * keyword fallback: confidence 0.7 and the keyword majority as label.
   */
  lemma NoProcessorMeansFallback(fields: Fields, attempt: Option<TextProcessorGemini.Replies>)
    requires !Lacking(fields)
    requires Get(fields, DescriptionKey, Str("")).Str?
    ensures RouteOf(fields, false, attempt) == Fallback
    ensures Outcome(fields, Fallback)[ConfidenceKey] == Num(FallbackConfidence)
    ensures LabelOf(Outcome(fields, Fallback)) == Some(Verdict(FullText(fields), PositiveWords, NegativeWords))
  {
  }
}

/**
 * The stand-alone web page (app_simple.py): it enriches fetched records with
 * a keyword heuristic and a plain truncation, without any model, then offers
 * a sentiment filter and three per-label counts. A record is processed only
 * when it has both a title and a description; taking the length of a
 * description that is a number raises, and nothing catches it, so the whole
 * fetch ends there and the previously shown list stays as it was.
 */
module AppSimple {
  import opened Wrappers
  import opened Articles
  import opened Sequences
  import opened Keywords
  import opened TextRules
  import opened Insights

  /** The page's positive keywords. */
  const PositiveWords: seq<string> :=
    ["good", "great", "excellent", "positive", "success", "win", "profit", "growth", "up", "rise", "increase"]

  /** The page's negative keywords. */
  const NegativeWords: seq<string> :=
    ["bad", "terrible", "negative", "loss", "fail", "down", "fall", "decrease", "crisis", "problem", "issue"]

  /** The confidence, in hundredths, of a POSITIVE or NEGATIVE verdict. */
  const DecidedConfidence: int := 70

  /** The confidence, in hundredths, of a NEUTRAL verdict (a tie). */
  const TieConfidence: int := 50

  /** The page keeps this many characters of a description as its summary. */
  const SummaryLength: int := 150

  /** The filter choice that keeps every record. */
  const AllChoice: string := "All"

  /**
   * `simple_sentiment_analysis`: the label with more keyword hits in the
   * lower-cased text, 0.7 sure; NEUTRAL at 0.5 on a tie.
   */
  function SimpleSentimentAnalysis(text: string): (r: Assessment)
    ensures r.sentiment == Positive <==>
      Hits(PyText.Lower(text), PositiveWords) > Hits(PyText.Lower(text), NegativeWords)
    ensures r.sentiment == Negative <==>
      Hits(PyText.Lower(text), NegativeWords) > Hits(PyText.Lower(text), PositiveWords)
    ensures r.confidence == TieConfidence <==>
      Hits(PyText.Lower(text), PositiveWords) == Hits(PyText.Lower(text), NegativeWords)
    ensures r.confidence == TieConfidence || r.confidence == DecidedConfidence
  {
    var sentiment := Verdict(text, PositiveWords, NegativeWords);
    Assessment(sentiment, if sentiment == Neutral then TieConfidence else DecidedConfidence)
  }

  /** `article.get('title') and article.get('description')`: the record is processed. */
  predicate Eligible(fields: Fields)
    ensures Eligible(fields) ==> !Lacking(fields) && TitleKey in fields && DescriptionKey in fields
  {
    Truthy(Get(fields, TitleKey, Null)) && Truthy(Get(fields, DescriptionKey, Null))
  }

  /** Processing the record raises: its description is a (non-zero) number, whose length is undefined. */
  predicate Raises(fields: Fields)
    ensures Raises(fields) ==> DescriptionKey in fields && fields[DescriptionKey].Num? && fields[DescriptionKey] != Num(0)
  {
    Eligible(fields) && !Get(fields, DescriptionKey, Str("")).Str?
  }

  /**
   * The record's dictionary once the loop has passed it: an eligible record
   * with a text description gains the summary (its description cut to 150
   * characters plus an ellipsis), the keyword verdict on title and
   * description, and that verdict's confidence, and keeps every other key;
   * any other record is untouched.
   */
  function Outcome(fields: Fields): (r: Fields)
    ensures !Eligible(fields) || Raises(fields) ==> r == fields
    ensures Eligible(fields) && !Raises(fields) ==>
      && r.Keys == fields.Keys + {SummaryKey, SentimentKey, ConfidenceKey}
      && r[SummaryKey] == Str(Ellipsize(fields[DescriptionKey].s, SummaryLength))
      && |r[SummaryKey].s| <= SummaryLength + 3
      && LabelOf(r) == Some(Verdict(FullText(fields), PositiveWords, NegativeWords))
      && r[ConfidenceKey] == Num(if LabelOf(r) == Some(Neutral) then TieConfidence else DecidedConfidence)
      && (forall k :: k in fields && k != SummaryKey && k != SentimentKey && k != ConfidenceKey ==> r[k] == fields[k])
  {
    if Eligible(fields) && !Raises(fields) then
      var assessment := SimpleSentimentAnalysis(FullText(fields));
      var summary := Ellipsize(Get(fields, DescriptionKey, Str("")).s, SummaryLength);
      Enriched(fields, Insight(summary, assessment.sentiment, assessment.confidence))
    else fields
  }

  /** Which records raise. */
  function RaiseFlags(snapshot: seq<Fields>): (r: seq<bool>)
    ensures |r| == |snapshot|
    ensures forall k :: 0 <= k < |snapshot| ==> (r[k] <==> Raises(snapshot[k]))
  {
    seq(|snapshot|, k requires 0 <= k < |snapshot| => Raises(snapshot[k]))
  }

  /** Which records are appended to the processed list. */
  function KeepFlags(snapshot: seq<Fields>): (r: seq<bool>)
    ensures |r| == |snapshot|
    ensures forall k :: 0 <= k < |snapshot| ==> (r[k] <==> Eligible(snapshot[k]))
  {
    seq(|snapshot|, k requires 0 <= k < |snapshot| => Eligible(snapshot[k]))
  }

  /**
   * The page's processing loop: if some eligible record has a numeric
   * description, the fetch raises (`None`) at the first such record, every
   * record before it holds its outcome and every record from it on is
   * untouched; otherwise the result lists the eligible records in fetch
   * order, each holding its outcome.
   */
  method ProcessFetched(fetched: seq<Article>) returns (result: Option<seq<Article>>)
    requires Distinct(fetched)
    modifies fetched
    ensures var before := old(Snapshot(fetched));
      && (result.None? <==> FirstTrue(RaiseFlags(before)) < |fetched|)
      && (result.Some? ==> result.value == Select(fetched, KeepFlags(before)))
      && Settled(fetched, before, FirstTrue(RaiseFlags(before)))
  {
    ghost var before := Snapshot(fetched);
    ghost var raises := RaiseFlags(before);
    ghost var keep := KeepFlags(before);
    var processed := [];
    for i := 0 to |fetched|
      invariant i <= FirstTrue(raises)
      invariant Progress(fetched, before, keep, processed, i)
    {
      var raised;
      processed, raised := VisitRecord(fetched, i, processed, before, keep);
      if raised {
        FirstTrueAt(raises, i);
        return None;
      }
      FirstTruePast(raises, i);
    }
    assert fetched[..|fetched|] == fetched;
    assert keep[..|fetched|] == keep;
    return Some(processed);
  }

  /** The loop's state after `i` records: the processed prefix and the settled records. */
  ghost predicate Progress(fetched: seq<Article>, before: seq<Fields>, keep: seq<bool>,
                           processed: seq<Article>, i: nat)
    reads fetched
  {
    && i <= |fetched| && |keep| == |fetched|
    && processed == Select(fetched[..i], keep[..i])
    && Settled(fetched, before, i)
  }

  /** One turn of the loop: process record `i` and append it when it is eligible. */
  method VisitRecord(fetched: seq<Article>, i: nat, processed: seq<Article>,
                     ghost before: seq<Fields>, ghost keep: seq<bool>)
      returns (extended: seq<Article>, raised: bool)
    requires i < |fetched| && |before| == |fetched| && Distinct(fetched)
    requires keep == KeepFlags(before)
    requires Progress(fetched, before, keep, processed, i)
    modifies fetched[i]
    ensures raised <==> Raises(before[i])
    ensures raised ==> Settled(fetched, before, i)
    ensures !raised ==> Progress(fetched, before, keep, extended, i + 1)
  {
    SelectSnoc(fetched, keep, i);
    var article := fetched[i];
    var kept;
    kept, raised := ProcessRecord(article, before[i]);
    SettleRecord(fetched, Outcomes(before), before, i);
    extended := if kept then processed + [article] else processed;
  }

  /**
   * The loop body for one record: analyse the title and description, cut
   * the description to 150 characters, and write the three keys in place.
   */
  method ProcessRecord(article: Article, ghost fields: Fields) returns (kept: bool, raised: bool)
    requires article.fields == fields
    modifies article
    ensures raised <==> Raises(fields)
    ensures kept <==> Eligible(fields) && !Raises(fields)
    ensures article.fields == Outcome(fields)
  {
    if !(Truthy(Get(article.fields, TitleKey, Null)) && Truthy(Get(article.fields, DescriptionKey, Null))) {
      return false, false;
    }
    var assessment := SimpleSentimentAnalysis(FullText(article.fields));
    var description := Get(article.fields, DescriptionKey, Str(""));
    if !description.Str? {
      // `len` of a number raises a TypeError that escapes the loop.
      return false, true;
    }
    var summary := Ellipsize(description.s, SummaryLength);
    article.fields := article.fields[SummaryKey := Str(summary)];
    article.fields := article.fields[SentimentKey := Str(assessment.sentiment.Name())];
    article.fields := article.fields[ConfidenceKey := Num(assessment.confidence)];
    return true, false;
  }

  /** Every record's outcome, in fetch order. */
  function Outcomes(snapshot: seq<Fields>): (r: seq<Fields>)
    ensures |r| == |snapshot|
    ensures forall k :: 0 <= k < |snapshot| ==> r[k] == Outcome(snapshot[k])
  {
    seq(|snapshot|, k requires 0 <= k < |snapshot| => Outcome(snapshot[k]))
  }

  /** The records before `stop` hold their outcomes; the others still hold their fetched fields. */
  ghost predicate Settled(fetched: seq<Article>, before: seq<Fields>, stop: nat)
    reads fetched
  {
    SettledAs(fetched, Outcomes(before), before, stop)
  }

  /**
   * Once the loop has finished, every record in the processed list carries
   * one of the three labels.
   */
  lemma {:induction false} ProcessedAreLabelled(fetched: seq<Article>, before: seq<Fields>)
    requires Settled(fetched, before, |fetched|)
    requires FirstTrue(RaiseFlags(before)) == |fetched|
    ensures forall a :: a in Select(fetched, KeepFlags(before)) ==> LabelOf(a.fields).Some?
  {
    var keep := KeepFlags(before);
    forall a | a in Select(fetched, keep)
      ensures LabelOf(a.fields).Some?
    {
      var k :| 0 <= k < |fetched| && keep[k] && fetched[k] == a;
      assert !RaiseFlags(before)[k];
      assert fetched[k].fields == Outcomes(before)[k] == Outcome(before[k]);
    }
  }

  /** The number the page shows for one label: the records holding exactly that label. */
  function Count(processed: seq<Article>, wanted: Sentiment): (n: nat)
    reads processed
    ensures n <= |processed|
  {
    CountTrue(SentimentFlags(Snapshot(processed), wanted.Name()))
  }

  /**
   * The sentiment filter: "All" shows a copy of the whole list, any other
   * choice the records whose sentiment is exactly that choice, in order; a
   * label's filtered list is as long as the count shown for it.
   */
  function Filter(processed: seq<Article>, selected: string): (r: seq<Article>)
    reads processed
    ensures selected == AllChoice ==> r == processed
    ensures selected != AllChoice ==>
      && Subsequence(r, processed)
      && (forall a :: a in r ==> Get(a.fields, SentimentKey, Null) == Str(selected))
      && (forall a :: a in processed && Get(a.fields, SentimentKey, Null) == Str(selected) ==> a in r)
    ensures forall l: Sentiment :: selected == l.Name() ==> |r| == Count(processed, l)
  {
    if selected == AllChoice then processed else MatchingSentiment(processed, selected)
  }

  /**
   * The three counts never exceed the total, and they add up to it exactly
   * when every record carries one of the three labels.
   */
  lemma CountsAddUp(processed: seq<Article>)
    ensures Count(processed, Positive) + Count(processed, Negative) + Count(processed, Neutral) <= |processed|
    ensures Count(processed, Positive) + Count(processed, Negative) + Count(processed, Neutral) == |processed|
        <==> forall a :: a in processed ==> LabelOf(a.fields).Some?
  {
    var snapshot := Snapshot(processed);
    var p, n, u := SentimentFlags(snapshot, "POSITIVE"), SentimentFlags(snapshot, "NEGATIVE"), SentimentFlags(snapshot, "NEUTRAL");
    CountTrueOfThree(p, n, u);
    assert Count(processed, Positive) == CountTrue(p);
    assert Count(processed, Negative) == CountTrue(n);
    assert Count(processed, Neutral) == CountTrue(u);
    forall k | 0 <= k < |processed|
      ensures LabelOf(processed[k].fields).Some? <==> p[k] || n[k] || u[k]
    {
      LabelledIffNamed(snapshot[k]);
    }
    assert (forall a :: a in processed ==> LabelOf(a.fields).Some?)
       <==> (forall k :: 0 <= k < |processed| ==> LabelOf(processed[k].fields).Some?);
  }

  /** A dictionary carries a label exactly when its sentiment is one of the three names. */
  lemma LabelledIffNamed(fields: Fields)
    ensures LabelOf(fields).Some? <==>
      Get(fields, SentimentKey, Null) in {Str("POSITIVE"), Str("NEGATIVE"), Str("NEUTRAL")}
  {
    assert Positive.Name() == "POSITIVE" && Negative.Name() == "NEGATIVE" && Neutral.Name() == "NEUTRAL";
  }
}

/**
 * An article record as the news API delivers it and the pipeline enriches it:
 * a dictionary from keys to values, updated in place.
 */
module Articles {
  import opened Wrappers
  import opened PyText

  /** A value held under a key: text, `None`, or a number (kept in hundredths: 0.7 is 70). */
  datatype Value = Str(s: string) | Null | Num(hundredths: int)

  type Fields = map<string, Value>

  const TitleKey: string := "title"
  const DescriptionKey: string := "description"
  const SummaryKey: string := "summary"
  const SentimentKey: string := "sentiment"
  const ConfidenceKey: string := "sentiment_confidence"

  /** The article dictionary; processing adds keys to it in place. */
  class Article {
    var fields: Fields

    constructor (fields: Fields)
      ensures this.fields == fields
    {
      this.fields := fields;
    }
  }

  /** `fields.get(key, default)` */
  function Get(fields: Fields, key: string, default: Value): Value {
    if key in fields then fields[key] else default
  }

  /** Python truthiness: the empty string, `None` and zero are false. */
  predicate Truthy(v: Value)
    ensures Truthy(v) <==> v != Str("") && v != Null && v != Num(0)
  {
    match v
    case Str(s) => s != []
    case Null => false
    case Num(h) => h != 0
  }

  function DigitChar(d: nat): (c: char)
    requires d < 10
    ensures '0' <= c <= '9' && c as int - '0' as int == d
  {
    "0123456789"[d]
  }

  function NatText(n: nat): (r: string)
    ensures r != [] && forall i :: 0 <= i < |r| ==> '0' <= r[i] <= '9'
  {
    if n < 10 then [DigitChar(n)] else NatText(n / 10) + [DigitChar(n % 10)]
  }

  /** How Python prints a float with at most two decimals: 0.5, 0.05, 1.0. */
  function DecimalText(h: nat): (r: string)
    ensures r != [] && '0' <= r[0] <= '9'
  {
    NatText(h / 100) + "."
      + (if h % 10 == 0 then [DigitChar(h % 100 / 10)] else [DigitChar(h % 100 / 10), DigitChar(h % 10)])
  }

  /** The text an f-string shows for a value. */
  function Display(v: Value): (r: string)
    ensures v.Str? ==> r == v.s
    ensures v == Null ==> r == "None"
    ensures v.Num? ==> r != [] && (r[0] == '-' <==> v.hundredths < 0)
  {
    match v
    case Str(s) => s
    case Null => "None"
    case Num(h) => if h < 0 then "-" + DecimalText(-h) else DecimalText(h)
  }

  /** How the two fixed confidences print: 0.7 and 0.5. */
  lemma DisplayConfidences()
    ensures Display(Num(70)) == "0.7"
    ensures Display(Num(50)) == "0.5"
  {
    assert NatText(0) == "0";
    assert DigitChar(5) == '5' && DigitChar(7) == '7';
  }

  /** Whole numbers keep one decimal, and two decimals print when the last is not zero. */
  lemma DisplayDecimals()
    ensures Display(Num(100)) == "1.0"
    ensures Display(Num(5)) == "0.05"
  {
    assert NatText(0) == "0" && NatText(1) == "1";
    assert DigitChar(0) == '0' && DigitChar(5) == '5';
  }

  /** A negative number prints with its sign. */
  lemma DisplayNegative()
    ensures Display(Num(-25)) == "-0.25"
  {
    calc {
      Display(Num(-25));
      "-" + DecimalText(25);
      { QuarterText(); }
      "-" + "0.25";
    }
  }

  /** The digits of a quarter: 0.25. */
  lemma QuarterText()
    ensures DecimalText(25) == "0.25"
  {
    assert NatText(0) == "0";
    assert DigitChar(2) == '2' && DigitChar(5) == '5';
  }

  /** `f"{article.get('title', '')} {article.get('description', '')}"`: the text every strategy analyses. */
  function FullText(fields: Fields): (r: string)
    ensures Get(fields, TitleKey, Str("")).Str? && Get(fields, DescriptionKey, Str("")).Str? ==>
      r == Get(fields, TitleKey, Str("")).s + " " + Get(fields, DescriptionKey, Str("")).s
    ensures TitleKey !in fields && DescriptionKey !in fields ==> r == " "
    ensures Get(fields, TitleKey, Str("")) == Str("") && Get(fields, DescriptionKey, Str("")) == Str("") ==> r == " "
  {
    Display(Get(fields, TitleKey, Str(""))) + " " + Display(Get(fields, DescriptionKey, Str("")))
  }

  /** `not article.get('title') and not article.get('description')`: nothing to analyse. */
  predicate Lacking(fields: Fields)
    ensures TitleKey !in fields && DescriptionKey !in fields ==> Lacking(fields)
    ensures !Lacking(fields) ==> TitleKey in fields || DescriptionKey in fields
    ensures Lacking(fields) <==>
      && (TitleKey !in fields || fields[TitleKey] in {Str(""), Null, Num(0)})
      && (DescriptionKey !in fields || fields[DescriptionKey] in {Str(""), Null, Num(0)})
  {
    !Truthy(Get(fields, TitleKey, Null)) && !Truthy(Get(fields, DescriptionKey, Null))
  }

  /** The fixed label set. */
  datatype Sentiment = Positive | Negative | Neutral {
    function Name(): string {
      match this
      case Positive => "POSITIVE"
      case Negative => "NEGATIVE"
      case Neutral => "NEUTRAL"
    }
  }

  /** The label a text names exactly, if any. */
  function ParseLabel(s: string): (r: Option<Sentiment>)
    ensures r.Some? ==> r.value.Name() == s
    ensures forall l: Sentiment :: l.Name() == s ==> r == Some(l)
  {
    if s == "POSITIVE" then Some(Positive)
    else if s == "NEGATIVE" then Some(Negative)
    else if s == "NEUTRAL" then Some(Neutral)
    else None
  }

  /** The label held under the `sentiment` key, when it is one of the three. */
  function LabelOf(fields: Fields): (r: Option<Sentiment>)
    ensures r.Some? <==> exists l: Sentiment :: Get(fields, SentimentKey, Null) == Str(l.Name())
  {
    match Get(fields, SentimentKey, Null)
    case Str(s) => ParseLabel(s)
    case _ => None
  }

  /** A sentiment analysis result: `{"label": ..., "confidence": ...}`, the confidence in hundredths. */
  datatype Assessment = Assessment(sentiment: Sentiment, confidence: int)

  /** What a strategy derives from an article: summary, label and confidence (in hundredths). */
  datatype Insight = Insight(summary: string, sentiment: Sentiment, confidence: int)

  /**
   * The dictionary after `article['summary']`, `article['sentiment']` and
   * `article['sentiment_confidence']` are assigned: exactly those three keys
   * change, and the sentiment is one of the three labels.
   */
  function Enriched(fields: Fields, insight: Insight): (r: Fields)
    ensures r.Keys == fields.Keys + {SummaryKey, SentimentKey, ConfidenceKey}
    ensures forall k :: k in fields && k != SummaryKey && k != SentimentKey && k != ConfidenceKey ==> r[k] == fields[k]
    ensures r[SummaryKey] == Str(insight.summary)
    ensures r[ConfidenceKey] == Num(insight.confidence)
    ensures LabelOf(r) == Some(insight.sentiment)
  {
    fields[SummaryKey := Str(insight.summary)]
          [SentimentKey := Str(insight.sentiment.Name())]
          [ConfidenceKey := Num(insight.confidence)]
  }

  /** The dictionaries of a list of articles, as they are in the current state. */
  function Snapshot(articles: seq<Article>): (r: seq<Fields>)
    reads articles
    ensures |r| == |articles|
    ensures forall k :: 0 <= k < |articles| ==> r[k] == articles[k].fields
  {
    seq(|articles|, k requires 0 <= k < |articles| reads articles => articles[k].fields)
  }

  /**
   * The dictionaries a loop leaves behind: record `k`'s dictionary passed,
   * with what decides its fate, through the loop's per-record `outcome`.
   */
  function Outcomes<T>(snapshot: seq<Fields>, inputs: seq<T>, outcome: (Fields, T) -> Fields): (r: seq<Fields>)
    requires |inputs| == |snapshot|
    ensures |r| == |snapshot|
    ensures forall k :: 0 <= k < |snapshot| ==> r[k] == outcome(snapshot[k], inputs[k])
  {
    seq(|snapshot|, k requires 0 <= k < |snapshot| => outcome(snapshot[k], inputs[k]))
  }

  /**
   * Where a loop over `fetched` stands: the records before `stop` hold their
   * new dictionaries `after`, the others still hold their dictionaries `before`.
   */
  ghost predicate SettledAs(fetched: seq<Article>, after: seq<Fields>, before: seq<Fields>, stop: nat)
    reads fetched
  {
    && |after| == |fetched| && |before| == |fetched| && stop <= |fetched|
    && (forall k :: 0 <= k < stop ==> fetched[k].fields == after[k])
    && (forall k :: stop <= k < |fetched| ==> fetched[k].fields == before[k])
  }

  /**
   * Record `i` now holds its new dictionary and every other record is as it
   * was: one more record is settled, and when the new dictionary is the old
   * one nothing has moved at all.
   */
  lemma SettleRecord(fetched: seq<Article>, after: seq<Fields>, before: seq<Fields>, i: nat)
    requires |after| == |fetched| && |before| == |fetched| && i < |fetched|
    requires forall k :: 0 <= k < i ==> fetched[k].fields == after[k]
    requires forall k :: i < k < |fetched| ==> fetched[k].fields == before[k]
    requires fetched[i].fields == after[i]
    ensures SettledAs(fetched, after, before, i + 1)
    ensures after[i] == before[i] ==> SettledAs(fetched, after, before, i)
  {
    assert forall k :: 0 <= k < i + 1 ==> fetched[k].fields == after[k];
  }

  /** No dictionary occurs twice in a list (each fetched record is a fresh object). */
  predicate Distinct(articles: seq<Article>) {
    forall i, j :: 0 <= i < j < |articles| ==> articles[i] != articles[j]
  }
}
